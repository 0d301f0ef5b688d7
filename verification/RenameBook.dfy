/** Injective renaming of order ids commutes with everything a book does. */
module RenameBook {
  import opened Types
  import opened BookSpec
  import opened MatchSteps

  type IdMap = map<OrderId, OrderId>

  ghost predicate Injective(f: IdMap) {
    forall a, b :: a in f && b in f && f[a] == f[b] ==> a == b
  }

  function Ren(f: IdMap, id: OrderId): OrderId {
    if id in f then f[id] else id
  }

  function RenOrder(f: IdMap, o: Order): Order {
    o.(id := Ren(f, o.id))
  }

  function RenQueue(f: IdMap, q: seq<Order>): (r: seq<Order>)
    ensures |r| == |q|
    ensures forall i :: 0 <= i < |q| ==> r[i] == RenOrder(f, q[i])
  {
    if q == [] then [] else [RenOrder(f, q[0])] + RenQueue(f, q[1..])
  }

  function RenBook(f: IdMap, b: Book): Book {
    Book(RenQueue(f, b.bids), RenQueue(f, b.asks))
  }

  function RenTrades(f: IdMap, ts: seq<Trade>): (r: seq<Trade>)
    ensures |r| == |ts|
  {
    if ts == [] then []
    else [ts[0].(takerId := Ren(f, ts[0].takerId), makerId := Ren(f, ts[0].makerId))] + RenTrades(f, ts[1..])
  }

  function RenApplied(f: IdMap, a: Applied): Applied {
    Applied(RenBook(f, a.book), RenTrades(f, a.trades))
  }

  function RenOutcome(f: IdMap, m: MatchOutcome): MatchOutcome {
    MatchOutcome(RenTrades(f, m.trades), RenQueue(f, m.makers), m.remainder)
  }

  function RenTaker(f: IdMap, t: Taker): Taker {
    t.(id := Ren(f, t.id))
  }

  ghost predicate Known(f: IdMap, q: seq<Order>) {
    forall i :: 0 <= i < |q| ==> q[i].id in f
  }

  ghost predicate KnownBook(f: IdMap, b: Book) {
    Known(f, b.bids) && Known(f, b.asks)
  }

  lemma {:induction false} RenTail(f: IdMap, q: seq<Order>)
    requires q != []
    ensures RenQueue(f, q)[1..] == RenQueue(f, q[1..])
  {
  }

  lemma {:induction false} RenCons(f: IdMap, o: Order, q: seq<Order>)
    ensures RenQueue(f, [o] + q) == [RenOrder(f, o)] + RenQueue(f, q)
  {
    assert ([o] + q)[1..] == q;
  }

  // ---- Queues --------------------------------------------------------------------------------

  lemma {:induction false} RenHas(f: IdMap, q: seq<Order>, id: OrderId)
    requires Injective(f) && Known(f, q) && id in f
    ensures Has(RenQueue(f, q), f[id]) <==> Has(q, id)
  {
    var r := RenQueue(f, q);
    if Has(q, id) {
      var i :| 0 <= i < |q| && q[i].id == id;
      assert r[i].id == f[id];
    }
    if Has(r, f[id]) {
      var i :| 0 <= i < |r| && r[i].id == f[id];
      assert q[i].id == id;
    }
  }

  lemma {:induction false} RenLookup(f: IdMap, q: seq<Order>, id: OrderId)
    requires Injective(f) && Known(f, q) && id in f && Has(q, id)
    ensures Has(RenQueue(f, q), f[id]) && Lookup(RenQueue(f, q), f[id]) == RenOrder(f, Lookup(q, id))
    decreases |q|
  {
    RenHas(f, q, id);
    RenTail(f, q);
    if q[0].id != id {
      var i :| 0 <= i < |q| && q[i].id == id;
      assert q[1..][i - 1].id == id;
      RenLookup(f, q[1..], id);
    }
  }

  lemma {:induction false} RenRemove(f: IdMap, q: seq<Order>, id: OrderId, n: Quantity)
    requires Injective(f) && Known(f, q) && id in f
    ensures Remove(RenQueue(f, q), f[id]) == RenQueue(f, Remove(q, id)) && Known(f, Remove(q, id))
    ensures Resize(RenQueue(f, q), f[id], n) == RenQueue(f, Resize(q, id, n)) && Known(f, Resize(q, id, n))
    decreases |q|
  {
    if q != [] {
      RenTail(f, q);
      if q[0].id != id {
        RenRemove(f, q[1..], id, n);
        RenCons(f, q[0], Remove(q[1..], id));
        RenCons(f, q[0], Resize(q[1..], id, n));
      } else {
        RenCons(f, q[0].(quantity := n), q[1..]);
      }
    }
  }

  lemma {:induction false} RenInsert(f: IdMap, q: seq<Order>, o: Order)
    requires Known(f, q) && o.id in f
    ensures Insert(RenQueue(f, q), RenOrder(f, o)) == RenQueue(f, Insert(q, o)) && Known(f, Insert(q, o))
    decreases |q|
  {
    if q == [] {
      RenCons(f, o, []);
    } else if Better(o.side, o.price, q[0].price) {
      RenCons(f, o, q);
    } else {
      RenTail(f, q);
      RenInsert(f, q[1..], o);
      RenCons(f, q[0], Insert(q[1..], o));
    }
  }

  lemma {:induction false} MatchUnfolds(t: Taker, q: seq<Order>, quantity: Quantity)
    requires quantity > 0 && q != [] && Crosses(t, q[0].price)
    ensures var traded := Min(quantity, q[0].quantity);
            var trade := Trade(t.id, q[0].id, q[0].price, traded);
            Match(t, q, quantity)
            == if traded == q[0].quantity then After([trade], Match(t, q[1..], quantity - traded))
               else MatchOutcome([trade], [q[0].(quantity := q[0].quantity - traded)] + q[1..], 0)
  {
  }

  lemma {:induction false} RenTradesCons(f: IdMap, x: Trade, ts: seq<Trade>)
    ensures RenTrades(f, [x] + ts)
            == [x.(takerId := Ren(f, x.takerId), makerId := Ren(f, x.makerId))] + RenTrades(f, ts)
    ensures RenTrades(f, [x]) == [x.(takerId := Ren(f, x.takerId), makerId := Ren(f, x.makerId))]
  {
    assert ([x] + ts)[1..] == ts;
  }

  lemma {:induction false} RenMatch(f: IdMap, t: Taker, q: seq<Order>, quantity: Quantity)
    requires Known(f, q)
    ensures Match(RenTaker(f, t), RenQueue(f, q), quantity) == RenOutcome(f, Match(t, q, quantity))
    ensures Known(f, Match(t, q, quantity).makers)
    decreases |q|
  {
    hide Match, RenQueue, RenTrades;
    if quantity > 0 && q != [] && Crosses(t, q[0].price) {
      RenTail(f, q);
      MatchUnfolds(t, q, quantity);
      MatchUnfolds(RenTaker(f, t), RenQueue(f, q), quantity);
      var traded := Min(quantity, q[0].quantity);
      var trade := Trade(t.id, q[0].id, q[0].price, traded);
      if traded == q[0].quantity {
        RenMatch(f, t, q[1..], quantity - traded);
        RenTradesCons(f, trade, Match(t, q[1..], quantity - traded).trades);
      } else {
        RenCons(f, q[0].(quantity := q[0].quantity - traded), q[1..]);
        RenTradesCons(f, trade, []);
      }
    } else {
      MatchStops(t, q, quantity);
      MatchStops(RenTaker(f, t), RenQueue(f, q), quantity);
      RenNoTrades(f);
    }
  }

  // ---- Books ---------------------------------------------------------------------------------

  lemma {:induction false} RenFind(f: IdMap, b: Book, id: OrderId)
    requires Injective(f) && KnownBook(f, b) && id in f
    ensures Contains(RenBook(f, b), f[id]) <==> Contains(b, id)
    ensures Contains(b, id) ==> Find(RenBook(f, b), f[id]) == RenOrder(f, Find(b, id))
  {
    hide Has, RenQueue, Lookup;
    RenHas(f, b.bids, id);
    RenHas(f, b.asks, id);
    if Has(b.bids, id) {
      RenLookup(f, b.bids, id);
    } else if Has(b.asks, id) {
      RenLookup(f, b.asks, id);
    }
  }

  lemma {:induction false} RenGate(f: IdMap, st: Storage, b: Book, id: OrderId, side: Side, price: Price,
                                   quantity: Quantity,
                                   tif: TimeInForce)
    requires KnownBook(f, b) && id in f
    ensures CanStoreLimit(st, RenBook(f, b), f[id], side, price, quantity, tif)
            == CanStoreLimit(st, b, id, side, price, quantity, tif)
  {
    hide Match, RenTrades;
    RenMatch(f, LimitTaker(id, side, price), SideOf(b, Opposite(side)), quantity);
  }

  lemma {:induction false} RenLimit(f: IdMap, st: Storage, b: Book, id: OrderId, side: Side, price: Price,
                                    quantity: Quantity,
                                    tif: TimeInForce)
    requires Injective(f) && KnownBook(f, b) && id in f
    ensures AddLimit(st, RenBook(f, b), f[id], side, price, quantity, tif)
            == RenApplied(f, AddLimit(st, b, id, side, price, quantity, tif))
    ensures KnownBook(f, AddLimit(st, b, id, side, price, quantity, tif).book)
  {
    hide Match, RenTrades, RenQueue, Contains, CanStoreLimit, Insert, Known;
    RenNoTrades(f);
    RenFind(f, b, id);
    RenGate(f, st, b, id, side, price, quantity, tif);
    RenMatch(f, LimitTaker(id, side, price), SideOf(b, Opposite(side)), quantity);
    var m := MatchIn(b, LimitTaker(id, side, price), quantity);
    RenInsert(f, SideOf(b, side), Order(id, side, price, m.remainder));
  }

  lemma {:induction false} RenNoTrades(f: IdMap)
    ensures RenTrades(f, []) == []
  {
  }

  lemma {:induction false} RenMarket(f: IdMap, b: Book, id: OrderId, side: Side, quantity: Quantity)
    requires Injective(f) && KnownBook(f, b) && id in f
    ensures AddMarket(RenBook(f, b), f[id], side, quantity) == RenApplied(f, AddMarket(b, id, side, quantity))
    ensures KnownBook(f, AddMarket(b, id, side, quantity).book)
  {
    hide Match, RenTrades, RenQueue, Contains, Known;
    RenNoTrades(f);
    RenFind(f, b, id);
    RenMatch(f, Taker(id, side, true, 0), SideOf(b, Opposite(side)), quantity);
  }

  lemma {:induction false} RenCancel(f: IdMap, b: Book, id: OrderId)
    requires Injective(f) && KnownBook(f, b) && id in f
    ensures Cancel(RenBook(f, b), f[id]) == RenBook(f, Cancel(b, id)) && KnownBook(f, Cancel(b, id))
  {
    hide Has, RenQueue, Remove, Known;
    RenHas(f, b.bids, id);
    RenRemove(f, b.bids, id, 0);
    RenRemove(f, b.asks, id, 0);
  }

  lemma {:induction false} RenModifyGate(f: IdMap, st: Storage, b: Book, id: OrderId, price: Price, quantity: Quantity)
    requires Injective(f) && KnownBook(f, b) && id in f
    ensures CanApplyModify(st, RenBook(f, b), f[id], price, quantity) == CanApplyModify(st, b, id, price, quantity)
  {
    hide Match, RenTrades, RenQueue, Contains, Find, Known;
    RenFind(f, b, id);
    if Contains(b, id) {
      var side := Find(b, id).side;
      RenMatch(f, LimitTaker(id, side, price), SideOf(b, Opposite(side)), quantity);
    }
  }

  lemma {:induction false} RenModify(f: IdMap, st: Storage, b: Book, id: OrderId, price: Price, quantity: Quantity)
    requires Injective(f) && KnownBook(f, b) && id in f
    ensures Modify(st, RenBook(f, b), f[id], price, quantity) == RenApplied(f, Modify(st, b, id, price, quantity))
    ensures KnownBook(f, Modify(st, b, id, price, quantity).book)
  {
    hide RenTrades, RenQueue, Contains, Find, CanApplyModify, AddLimit, Cancel, Resize, Known, Match;
    RenNoTrades(f);
    RenFind(f, b, id);
    RenModifyGate(f, st, b, id, price, quantity);
    if Contains(b, id) {
      var side := Find(b, id).side;
      RenCancel(f, b, id);
      RenRemove(f, SideOf(b, side), id, quantity);
      RenLimit(f, st, Cancel(b, id), id, side, price, quantity, GTC);
    }
  }
}
