/** The multi-symbol engine as a pure transition function, and what every run of it keeps. */
module Engine {
  import opened Types
  import opened BookSpec
  import opened BookTheorems
  import opened MatchSteps

  datatype Event =
    | Accepted(seqNo: nat, symbol: SymbolId, id: OrderId)
    | Canceled(seqNo: nat, symbol: SymbolId, id: OrderId)
    | Modified(seqNo: nat, symbol: SymbolId, id: OrderId)
    | Traded(seqNo: nat, symbol: SymbolId, takerId: OrderId, makerId: OrderId, price: Price, quantity: Quantity)

  datatype Command =
    | RegisterSymbol(name: string)
    | NewLimit(symbol: SymbolId, id: OrderId, side: Side, price: Price, quantity: Quantity, tif: TimeInForce)
    | NewMarket(symbol: SymbolId, id: OrderId, side: Side, quantity: Quantity)
    | CancelOrder(symbol: SymbolId, id: OrderId)
    | ModifyOrder(symbol: SymbolId, id: OrderId, price: Price, quantity: Quantity)

  /** The registry hands out ids in registration order; every registered id has a book. */
  datatype Engine = Engine(storage: Storage, names: map<string, SymbolId>, next: SymbolId,
                           books: map<SymbolId, Book>, seqNo: nat)

  datatype Step = Step(engine: Engine, events: seq<Event>)

  function Fresh(storage: Storage): Engine {
    Engine(storage, map[], 0, map[], 0)
  }

  function Register(e: Engine, name: string): Engine {
    var id := if name in e.names then e.names[name] else e.next;
    var n := if name in e.names then e else e.(names := e.names[name := id], next := e.next + 1);
    if id in e.books then n else n.(books := e.books[id := EMPTY_BOOK])
  }

  /** One event per trade, numbered from `last + 1`. */
  function TradeEvents(last: nat, symbol: SymbolId, trades: seq<Trade>): (r: seq<Event>)
    ensures |r| == |trades|
    decreases |trades|
  {
    if trades == [] then []
    else
      var t := trades[0];
      [Traded(last + 1, symbol, t.takerId, t.makerId, t.price, t.quantity)] + TradeEvents(last + 1, symbol, trades[1..])
  }

  function Emit(e: Engine, symbol: SymbolId, head: Event, a: Applied): Step {
    Step(e.(books := e.books[symbol := a.book], seqNo := e.seqNo + 1 + |a.trades|),
         [head] + TradeEvents(e.seqNo + 1, symbol, a.trades))
  }

  function Limit(e: Engine, symbol: SymbolId, id: OrderId, side: Side, price: Price, quantity: Quantity,
                 tif: TimeInForce): Step
  {
    if symbol !in e.books || Contains(e.books[symbol], id)
       || !CanStoreLimit(e.storage, e.books[symbol], id, side, price, quantity, tif) then Step(e, [])
    else
      Emit(e, symbol, Accepted(e.seqNo + 1, symbol, id),
           AddLimit(e.storage, e.books[symbol], id, side, price, quantity, tif))
  }

  function Market(e: Engine, symbol: SymbolId, id: OrderId, side: Side, quantity: Quantity): Step {
    if symbol !in e.books || Contains(e.books[symbol], id) then Step(e, [])
    else Emit(e, symbol, Accepted(e.seqNo + 1, symbol, id), AddMarket(e.books[symbol], id, side, quantity))
  }

  function CancelIn(e: Engine, symbol: SymbolId, id: OrderId): Step {
    if symbol !in e.books || !Contains(e.books[symbol], id) then Step(e, [])
    else Emit(e, symbol, Canceled(e.seqNo + 1, symbol, id), Applied(Cancel(e.books[symbol], id), []))
  }

  function ModifyIn(e: Engine, symbol: SymbolId, id: OrderId, price: Price, quantity: Quantity): Step {
    if symbol !in e.books || !Contains(e.books[symbol], id)
       || !CanApplyModify(e.storage, e.books[symbol], id, price, quantity) then Step(e, [])
    else
      Emit(e, symbol, Modified(e.seqNo + 1, symbol, id), Modify(e.storage, e.books[symbol], id, price, quantity))
  }

  /** Straight to the engine, without risk checks. */
  function Perform(e: Engine, c: Command): Step {
    match c
    case RegisterSymbol(name) => Step(Register(e, name), [])
    case NewLimit(symbol, id, side, price, quantity, tif) => Limit(e, symbol, id, side, price, quantity, tif)
    case NewMarket(symbol, id, side, quantity) => Market(e, symbol, id, side, quantity)
    case CancelOrder(symbol, id) => CancelIn(e, symbol, id)
    case ModifyOrder(symbol, id, price, quantity) => ModifyIn(e, symbol, id, price, quantity)
  }

  function PerformAll(e: Engine, cs: seq<Command>): Step
    decreases |cs|
  {
    if cs == [] then Step(e, [])
    else
      var s := Perform(e, cs[0]);
      var rest := PerformAll(s.engine, cs[1..]);
      Step(rest.engine, s.events + rest.events)
  }

  lemma {:induction false} PerformAllLast(e: Engine, cs: seq<Command>, i: nat)
    requires i < |cs|
    ensures var s := PerformAll(e, cs[..i]);
            var t := Perform(s.engine, cs[i]);
            PerformAll(e, cs[..i + 1]) == Step(t.engine, s.events + t.events)
    decreases i
  {
    hide Perform;
    var n := cs[..i + 1];
    if i == 0 {
      assert n[1..] == [];
    } else {
      PerformAllLast(Perform(e, cs[0]).engine, cs[1..], i - 1);
      assert n[1..] == cs[1..][..i] && cs[..i][1..] == cs[1..][..i - 1];
      assert cs[..i][0] == cs[0] && n[0] == cs[0];
      var a := Perform(e, cs[0]);
      var s := PerformAll(a.engine, cs[1..][..i - 1]);
      var t := Perform(s.engine, cs[i]);
      assert a.events + (s.events + t.events) == a.events + s.events + t.events;
    }
  }

  // ---- What every reachable engine satisfies -------------------------------------------------

  ghost predicate RegistryOk(e: Engine) {
    && (forall s: SymbolId :: s in e.books <==> s < e.next)
    && (forall name :: name in e.names ==> e.names[name] < e.next)
    && (forall a, b :: a in e.names && b in e.names && e.names[a] == e.names[b] ==> a == b)
  }

  ghost predicate EngineOk(e: Engine) {
    RegistryOk(e) && forall s :: s in e.books ==> BookOk(e.books[s]) && Fits(e.storage, e.books[s])
  }

  lemma {:induction false} RegisterKeepsEngine(e: Engine, name: string)
    requires EngineOk(e)
    ensures EngineOk(Register(e, name))
    ensures var id := if name in e.names then e.names[name] else e.next;
            var n := Register(e, name);
            && name in n.names && n.names[name] == id && id in n.books
            && n.books[id] == (if name in e.names then e.books[id] else EMPTY_BOOK)
            && n.next == (if name in e.names then e.next else e.next + 1)
            && (forall s :: s in e.books && s != id ==> s in n.books && n.books[s] == e.books[s])
            && (forall other :: other in e.names && other != name ==>
                  other in n.names && n.names[other] == e.names[other])
            && n.storage == e.storage && n.seqNo == e.seqNo
  {
    hide BookOk, Fits;
    EmptyFits(e.storage);
  }

  /** The command as its book sees it. */
  function ForBook(c: Command): BookCommand
    requires !c.RegisterSymbol?
  {
    match c
    case NewLimit(_, id, side, price, quantity, tif) => LimitCmd(id, side, price, quantity, tif)
    case NewMarket(_, id, side, quantity) => MarketCmd(id, side, quantity)
    case CancelOrder(_, id) => CancelCmd(id)
    case ModifyOrder(_, id, price, quantity) => ModifyCmd(id, price, quantity)
  }

  /** Routing: an order command does to its symbol's book exactly what the book does, and nothing else. */
  lemma {:induction false} PerformRoutes(e: Engine, c: Command)
    requires !c.RegisterSymbol?
    ensures var n := Perform(e, c).engine;
            && n.names == e.names && n.next == e.next && n.storage == e.storage
            && n.books.Keys == e.books.Keys
            && (forall s :: s in e.books && s != c.symbol ==> n.books[s] == e.books[s])
            && (c.symbol in e.books ==>
                  n.books[c.symbol] == Apply(e.storage, e.books[c.symbol], ForBook(c)).book)
  {
    hide CanStoreLimit, CanApplyModify, Contains, Match;
    if c.symbol in e.books && c.CancelOrder? && !Contains(e.books[c.symbol], c.id) {
      CancelAbsent(e.books[c.symbol], c.id);
    }
  }

  lemma {:induction false} PerformKeepsEngine(e: Engine, c: Command)
    requires EngineOk(e)
    ensures EngineOk(Perform(e, c).engine)
  {
    hide BookOk, Fits, Perform;
    if c.RegisterSymbol? {
      RegisterKeepsEngine(e, c.name);
      assert Perform(e, c).engine == Register(e, c.name) by { PerformIs(e, c); }
    } else {
      PerformRoutes(e, c);
      if c.symbol in e.books {
        StepKeepsBook(e.storage, e.books[c.symbol], ForBook(c));
      }
    }
  }

  lemma {:induction false} PerformIs(e: Engine, c: Command)
    requires c.RegisterSymbol?
    ensures Perform(e, c) == Step(Register(e, c.name), [])
  {
  }

  lemma {:induction false} RunKeepsEngine(e: Engine, cs: seq<Command>)
    requires EngineOk(e)
    ensures EngineOk(PerformAll(e, cs).engine)
    decreases |cs|
  {
    hide EngineOk, Perform;
    if cs != [] {
      PerformKeepsEngine(e, cs[0]);
      RunKeepsEngine(Perform(e, cs[0]).engine, cs[1..]);
    }
  }

  // ---- Sequence numbers ----------------------------------------------------------------------

  /** Numbered `last + 1, last + 2, ...` without gap or repeat. */
  ghost predicate Numbered(last: nat, events: seq<Event>) {
    forall i :: 0 <= i < |events| ==> events[i].seqNo == last + 1 + i
  }

  lemma {:induction false} TradesNumbered(last: nat, symbol: SymbolId, trades: seq<Trade>)
    ensures Numbered(last, TradeEvents(last, symbol, trades))
    ensures forall i :: 0 <= i < |trades| ==>
              var t := trades[i];
              TradeEvents(last, symbol, trades)[i]
              == Traded(last + 1 + i, symbol, t.takerId, t.makerId, t.price, t.quantity)
    decreases |trades|
  {
    if trades != [] {
      TradesNumbered(last + 1, symbol, trades[1..]);
    }
  }

  lemma {:induction false} PerformNumbers(e: Engine, c: Command)
    ensures var s := Perform(e, c);
            Numbered(e.seqNo, s.events) && s.engine.seqNo == e.seqNo + |s.events|
  {
    hide AddLimit, AddMarket, Modify, Cancel, CanStoreLimit, CanApplyModify, Contains;
    if !c.RegisterSymbol? && c.symbol in e.books {
      var b := e.books[c.symbol];
      var a := if c.NewLimit? then AddLimit(e.storage, b, c.id, c.side, c.price, c.quantity, c.tif)
               else if c.NewMarket? then AddMarket(b, c.id, c.side, c.quantity)
               else if c.CancelOrder? then Applied(Cancel(b, c.id), [])
               else Modify(e.storage, b, c.id, c.price, c.quantity);
      TradesNumbered(e.seqNo + 1, c.symbol, a.trades);
    }
  }

  lemma {:induction false} NumberedJoin(last: nat, a: seq<Event>, b: seq<Event>)
    requires Numbered(last, a) && Numbered(last + |a|, b)
    ensures Numbered(last, a + b)
  {
    forall i | 0 <= i < |a + b| ensures (a + b)[i].seqNo == last + 1 + i {
      if i >= |a| { assert (a + b)[i] == b[i - |a|]; }
    }
  }

  /** The event stream of any run is strictly and consecutively numbered. */
  lemma {:induction false} RunNumbers(e: Engine, cs: seq<Command>)
    ensures var s := PerformAll(e, cs);
            Numbered(e.seqNo, s.events) && s.engine.seqNo == e.seqNo + |s.events|
    decreases |cs|
  {
    hide Perform, Numbered;
    if cs == [] {
      NumberedNone(e.seqNo);
    } else {
      PerformNumbers(e, cs[0]);
      var s := Perform(e, cs[0]);
      RunNumbers(s.engine, cs[1..]);
      NumberedJoin(e.seqNo, s.events, PerformAll(s.engine, cs[1..]).events);
    }
  }

  lemma {:induction false} NumberedNone(last: nat)
    ensures Numbered(last, [])
  {
  }

  // ---- Storage does not show -----------------------------------------------------------------

  predicate StorageRefuses(e: Engine, c: Command) {
    !c.RegisterSymbol? && c.symbol in e.books && Refuses(e.storage, e.books[c.symbol], ForBook(c))
  }

  predicate NeverStopped(e: Engine, cs: seq<Command>)
    decreases |cs|
  {
    cs == [] || (!StorageRefuses(e, cs[0]) && NeverStopped(Perform(e, cs[0]).engine, cs[1..]))
  }

  function OnBaseline(e: Engine): Engine {
    e.(storage := Baseline)
  }

  lemma {:induction false} PerformAgrees(e: Engine, c: Command)
    requires EngineOk(e) && !StorageRefuses(e, c)
    ensures Perform(OnBaseline(e), c) == Step(OnBaseline(Perform(e, c).engine), Perform(e, c).events)
  {
    hide BookOk, Fits, Contains, Match, TradeEvents;
    if !c.RegisterSymbol? && c.symbol in e.books {
      StepAgreesWithBaseline(e.storage, e.books[c.symbol], ForBook(c));
    }
  }

  /** Until a bounded storage refuses something, an engine on it emits the baseline engine's events. */
  lemma {:induction false} RunAgrees(e: Engine, cs: seq<Command>)
    requires EngineOk(e) && NeverStopped(e, cs)
    ensures PerformAll(OnBaseline(e), cs) == Step(OnBaseline(PerformAll(e, cs).engine), PerformAll(e, cs).events)
    decreases |cs|
  {
    hide Perform, EngineOk, StorageRefuses;
    if cs != [] {
      PerformAgrees(e, cs[0]);
      PerformKeepsEngine(e, cs[0]);
      RunAgrees(Perform(e, cs[0]).engine, cs[1..]);
    }
  }
}
