/**
 * What the operations of a book mean to a trader, in prices, quantities and places in the queue alone:
 * which orders a new order may hit and how much of them, where a resting or modified order stands, when a
 * storage may refuse, and what the queries report.
 */
module BookLaws {
  import opened Types
  import opened BookSpec
  import opened BookTheorems
  import opened BookQueries

  // ---- Price priority ------------------------------------------------------------------------

  /** Bids fall, asks rise, and every bid is below every ask. */
  lemma {:induction false} PricesInOrder(b: Book)
    requires BookOk(b)
    ensures forall i, j :: 0 <= i < j < |b.bids| ==> b.bids[i].price >= b.bids[j].price
    ensures forall i, j :: 0 <= i < j < |b.asks| ==> b.asks[i].price <= b.asks[j].price
    ensures forall i, j :: 0 <= i < |b.bids| && 0 <= j < |b.asks| ==> b.bids[i].price < b.asks[j].price
  {
    forall i, j | 0 <= i < j < |b.bids| ensures b.bids[i].price >= b.bids[j].price {
      assert !Better(Buy, b.bids[j].price, b.bids[i].price);
    }
    forall i, j | 0 <= i < j < |b.asks| ensures b.asks[i].price <= b.asks[j].price {
      assert !Better(Sell, b.asks[j].price, b.asks[i].price);
    }
    forall i, j | 0 <= i < |b.bids| && 0 <= j < |b.asks| ensures b.bids[i].price < b.asks[j].price {
      assert b.bids[0].price >= b.bids[i].price && b.asks[0].price <= b.asks[j].price;
    }
  }

  // ---- Which orders a new order trades with --------------------------------------------------

  /** All that rests at an acceptable price. */
  function Within(side: Side, limit: Price, makers: seq<Order>): nat {
    if makers == [] then 0
    else (if Acceptable(side, limit, makers[0].price) then makers[0].quantity else 0) + Within(side, limit, makers[1..])
  }

  ghost predicate TradesWithin(id: OrderId, side: Side, limit: Price, trades: seq<Trade>) {
    forall i :: 0 <= i < |trades| ==> trades[i].takerId == id && Acceptable(side, limit, trades[i].price)
  }

  lemma {:induction false} MatchStaysWithin(id: OrderId, side: Side, limit: Price, makers: seq<Order>,
                                            quantity: Quantity)
    ensures TradesWithin(id, side, limit, Match(LimitTaker(id, side, limit), makers, quantity).trades)
    decreases |makers|
  {
    var t := LimitTaker(id, side, limit);
    if quantity > 0 && makers != [] && Crosses(t, makers[0].price) && makers[0].quantity <= quantity {
      MatchStaysWithin(id, side, limit, makers[1..], quantity - makers[0].quantity);
    }
  }

  lemma {:induction false} EligibleIsWithin(id: OrderId, side: Side, limit: Price, makers: seq<Order>)
    ensures Eligible(LimitTaker(id, side, limit), makers) == Within(side, limit, makers)
    decreases |makers|
  {
    if makers != [] {
      EligibleIsWithin(id, side, limit, makers[1..]);
    }
  }

  /** No limit order, on any storage and in any book, ever trades at a price worse than its limit. */
  lemma {:induction false} LimitIsRespected(st: Storage, b: Book, id: OrderId, side: Side, price: Price,
                                            quantity: Quantity, tif: TimeInForce)
    ensures TradesWithin(id, side, price, AddLimit(st, b, id, side, price, quantity, tif).trades)
  {
    hide Match, Contains, CanStoreLimit, Insert;
    MatchStaysWithin(id, side, price, SideOf(b, Opposite(side)), quantity);
  }

  /** An admitted limit order trades all it can: the smaller of its quantity and all that rests within its limit. */
  lemma {:induction false} LimitTradesAllWithin(st: Storage, b: Book, id: OrderId, side: Side, price: Price,
                                                quantity: Quantity, tif: TimeInForce)
    requires BookOk(b) && !Contains(b, id) && CanStoreLimit(st, b, id, side, price, quantity, tif)
    ensures Traded(AddLimit(st, b, id, side, price, quantity, tif).trades)
            == Min(quantity, Within(side, price, SideOf(b, Opposite(side))))
  {
    hide Match, Contains, CanStoreLimit, Insert, Eligible, Within, Traded;
    MatchTakesAllItCan(LimitTaker(id, side, price), SideOf(b, Opposite(side)), quantity);
    EligibleIsWithin(id, side, price, SideOf(b, Opposite(side)));
  }

  lemma {:induction false} EligibleForMarket(t: Taker, makers: seq<Order>)
    requires t.isMarket
    ensures Eligible(t, makers) == TotalQuantity(makers)
    decreases |makers|
  {
    if makers != [] {
      EligibleForMarket(t, makers[1..]);
    }
  }

  /** A market order trades against the whole opposite side and never rests; a remainder means that side is empty. */
  lemma {:induction false} MarketSweeps(b: Book, id: OrderId, side: Side, quantity: Quantity)
    requires BookOk(b) && !Contains(b, id)
    ensures var a := AddMarket(b, id, side, quantity);
            && Traded(a.trades) == Min(quantity, TotalQuantity(SideOf(b, Opposite(side))))
            && SideOf(a.book, side) == SideOf(b, side)
            && (Traded(a.trades) < quantity ==> SideOf(a.book, Opposite(side)) == [])
            && forall i :: 0 <= i < |a.trades| ==> a.trades[i].takerId == id
  {
    hide Contains, Traded, TotalQuantity, Eligible;
    var t, makers := Taker(id, side, true, 0), SideOf(b, Opposite(side));
    MatchTakesAllItCan(t, makers, quantity);
    EligibleForMarket(t, makers);
    MatchConserves(t, makers, quantity);
    MatchLeavesNoCross(t, makers, quantity);
    MatchConsumesPrefix(t, makers, quantity);
  }

  // ---- Where an order stands -----------------------------------------------------------------

  /** Strictly worse priced than `price` on its side. */
  predicate Worse(side: Side, p: Price, price: Price) {
    match side
    case Buy => p < price
    case Sell => p > price
  }

  /** `now` is `was` with `o` behind every order of its price or better and before every worse one. */
  ghost predicate StandsBehind(now: seq<Order>, was: seq<Order>, o: Order) {
    exists j :: 0 <= j <= |was| && InPlace(now, was, o, j)
  }

  ghost predicate InPlace(now: seq<Order>, was: seq<Order>, o: Order, j: nat) {
    && j <= |was| && now == was[..j] + [o] + was[j..]
    && (forall i :: 0 <= i < j ==> !Worse(o.side, was[i].price, o.price))
    && (forall i :: j <= i < |was| ==> Worse(o.side, was[i].price, o.price))
  }

  lemma {:induction false} InsertStandsBehind(q: seq<Order>, o: Order)
    requires Sorted(o.side, q)
    ensures StandsBehind(Insert(q, o), q, o)
  {
    var k := InsertSplits(q, o);
    forall i | k <= i < |q| ensures Worse(o.side, q[i].price, o.price) {
      if i > k { assert !Better(o.side, q[i].price, q[k].price); }
    }
    assert InPlace(Insert(q, o), q, o, k);
  }

  /**
   * What an admitted limit order did not trade rests behind its price level if it is good till cancelled,
   * and is dropped if it is not; the rest of its own side stays as it was.
   */
  lemma {:induction false} RemainderRests(st: Storage, b: Book, id: OrderId, side: Side, price: Price,
                                          quantity: Quantity, tif: TimeInForce)
    requires BookOk(b) && !Contains(b, id) && CanStoreLimit(st, b, id, side, price, quantity, tif)
    ensures var a := AddLimit(st, b, id, side, price, quantity, tif);
            var left := quantity - Traded(a.trades);
            if left > 0 && tif.GTC? then
              StandsBehind(SideOf(a.book, side), SideOf(b, side), Order(id, side, price, left))
            else SideOf(a.book, side) == SideOf(b, side)
  {
    hide Contains, CanStoreLimit, Traded, Match, Insert, TotalQuantity, StandsBehind;
    MatchConserves(LimitTaker(id, side, price), SideOf(b, Opposite(side)), quantity);
    var left := MatchIn(b, LimitTaker(id, side, price), quantity).remainder;
    InsertStandsBehind(SideOf(b, side), Order(id, side, price, left));
  }

  // ---- Modify --------------------------------------------------------------------------------

  ghost predicate IsAt(b: Book, id: OrderId, side: Side, k: nat) {
    k < |SideOf(b, side)| && SideOf(b, side)[k].id == id
  }

  lemma {:induction false} FoundThere(b: Book, id: OrderId, side: Side, k: nat)
    requires BookOk(b) && IsAt(b, id, side, k)
    ensures Contains(b, id) && Find(b, id) == SideOf(b, side)[k] && Find(b, id).side == side
    ensures !Has(SideOf(b, Opposite(side)), id)
    ensures forall i :: 0 <= i < k ==> SideOf(b, side)[i].id != id
  {
    assert !Has(SideOf(b, Opposite(side)), id);
    FoundAt(b, side, k, id);
  }

  /** A reduction at the same price keeps the order's place, on every storage, and touches nothing else. */
  lemma {:induction false} ReductionKeepsPlace(st: Storage, b: Book, side: Side, k: nat, quantity: Quantity)
    requires BookOk(b) && k < |SideOf(b, side)| && 0 < quantity <= SideOf(b, side)[k].quantity
    ensures var q := SideOf(b, side);
            Modify(st, b, q[k].id, q[k].price, quantity)
            == Applied(WithSide(b, side, q[k := q[k].(quantity := quantity)]), [])
  {
    hide Contains, Find, BookOk, Resize, Match;
    var q := SideOf(b, side);
    FoundThere(b, q[k].id, side, k);
    ResizeAt(q, q[k].id, quantity, k);
  }

  /** Every other modify loses priority: the order leaves its place and comes in anew. */
  lemma {:induction false} ChangeLosesPlace(st: Storage, b: Book, side: Side, k: nat, price: Price, quantity: Quantity)
    requires BookOk(b) && Fits(st, b) && k < |SideOf(b, side)| && quantity > 0
    requires price != SideOf(b, side)[k].price || quantity > SideOf(b, side)[k].quantity
    requires CanApplyModify(st, b, SideOf(b, side)[k].id, price, quantity)
    ensures var q, other := SideOf(b, side), SideOf(b, Opposite(side));
            var rest := q[..k] + q[k + 1..];
            var a := Modify(st, b, q[k].id, price, quantity);
            var left := quantity - Traded(a.trades);
            && TradesWithin(q[k].id, side, price, a.trades)
            && Traded(a.trades) == Min(quantity, Within(side, price, other))
            && (if left > 0 then StandsBehind(SideOf(a.book, side), rest, Order(q[k].id, side, price, left))
                else SideOf(a.book, side) == rest)
  {
    hide Contains, Find, Fits, CanStoreLimit, CanApplyModify, AddLimit, Cancel, Traded, Within, TradesWithin;
    hide StandsBehind, BookOk;
    var q := SideOf(b, side);
    var id := q[k].id;
    FoundThere(b, id, side, k);
    ModifyReAddIsAdmitted(st, b, id, price, quantity);
    CancelKeepsBook(st, b, id);
    TakenOut(b, side, k);
    LimitIsRespected(st, Cancel(b, id), id, side, price, quantity, GTC);
    LimitTradesAllWithin(st, Cancel(b, id), id, side, price, quantity, GTC);
    RemainderRests(st, Cancel(b, id), id, side, price, quantity, GTC);
  }

  lemma {:induction false} TakenOut(b: Book, side: Side, k: nat)
    requires BookOk(b) && k < |SideOf(b, side)|
    ensures var q := SideOf(b, side);
            Cancel(b, q[k].id) == WithSide(b, side, q[..k] + q[k + 1..])
  {
    hide BookOk, Remove;
    var q := SideOf(b, side);
    FoundThere(b, q[k].id, side, k);
    var j := RemoveSplits(q, q[k].id);
  }

  /** A modify to nothing takes the order out of its place and leaves the rest alone. */
  lemma {:induction false} ModifyToNothing(st: Storage, b: Book, side: Side, k: nat, price: Price)
    requires BookOk(b) && k < |SideOf(b, side)|
    ensures var q := SideOf(b, side);
            Modify(st, b, q[k].id, price, 0) == Applied(WithSide(b, side, q[..k] + q[k + 1..]), [])
  {
    hide Contains, Cancel, BookOk;
    TakenOut(b, side, k);
    FoundThere(b, SideOf(b, side)[k].id, side, k);
  }

  // ---- Who trades ----------------------------------------------------------------------------

  ghost predicate Mentions(trades: seq<Trade>, id: OrderId) {
    exists i :: 0 <= i < |trades| && (trades[i].makerId == id || trades[i].takerId == id)
  }

  lemma {:induction false} MatchNames(t: Taker, makers: seq<Order>, quantity: Quantity, id: OrderId)
    requires !Has(makers, id) && t.id != id
    ensures !Mentions(Match(t, makers, quantity).trades, id) && !Has(Match(t, makers, quantity).makers, id)
  {
    hide Match;
    var m := Match(t, makers, quantity);
    MatchConsumesPrefix(t, makers, quantity);
    var k := |makers| - |m.makers|;
    forall i | 0 <= i < |m.makers| ensures m.makers[i].id != id {
      assert makers[i + k].id != id;
      if |m.trades| == k {
        assert m.makers[i] == makers[k..][i];
      } else if i > 0 {
        assert m.makers[i] == makers[k + 1..][i - 1];
      }
    }
    forall i | 0 <= i < |m.trades| ensures m.trades[i].makerId != id && m.trades[i].takerId != id {
      assert makers[i].id != id;
    }
  }

  lemma {:induction false} InsertNames(q: seq<Order>, o: Order, id: OrderId)
    requires !Has(q, id) && o.id != id
    ensures !Has(Insert(q, o), id)
  {
    var k := InsertSplits(q, o);
    var r := q[..k] + [o] + q[k..];
    forall i | 0 <= i < |r| ensures r[i].id != id {
      if i < k { assert r[i] == q[i]; } else if i > k { assert r[i] == q[i - 1]; }
    }
  }

  lemma {:induction false} LimitNames(st: Storage, b: Book, id: OrderId, side: Side, price: Price, quantity: Quantity,
                                      tif: TimeInForce, gone: OrderId)
    requires !Contains(b, gone) && id != gone
    ensures var a := AddLimit(st, b, id, side, price, quantity, tif);
            !Mentions(a.trades, gone) && !Contains(a.book, gone)
  {
    hide Match, Insert, Has, CanStoreLimit, Mentions;
    NobodyNamed(gone);
    var t := LimitTaker(id, side, price);
    MatchNames(t, SideOf(b, Opposite(side)), quantity, gone);
    InsertNames(SideOf(b, side), Order(id, side, price, MatchIn(b, t, quantity).remainder), gone);
  }

  lemma {:induction false} NobodyNamed(id: OrderId)
    ensures !Mentions([], id)
  {
  }

  lemma {:induction false} CancelNames(b: Book, id: OrderId, gone: OrderId)
    requires !Contains(b, gone)
    ensures !Contains(Cancel(b, id), gone)
  {
    hide Has, Remove;
    RemoveNames(b.bids, id, gone);
    RemoveNames(b.asks, id, gone);
  }

  lemma {:induction false} RemoveNames(q: seq<Order>, id: OrderId, gone: OrderId)
    requires !Has(q, gone)
    ensures !Has(Remove(q, id), gone)
  {
    if Has(q, id) {
      var k := RemoveSplits(q, id);
      var r := q[..k] + q[k + 1..];
      forall i | 0 <= i < |r| ensures r[i].id != gone {
        if i < k { assert r[i] == q[i]; } else { assert r[i] == q[i + 1]; }
      }
    } else {
      RemoveAbsent(q, id);
    }
  }

  lemma {:induction false} ResizeNames(q: seq<Order>, id: OrderId, n: Quantity, gone: OrderId)
    requires !Has(q, gone)
    ensures !Has(Resize(q, id, n), gone)
    decreases |q|
  {
    if q != [] {
      assert q[0].id != gone;
      assert !Has(q[1..], gone) by {
        forall i | 0 <= i < |q[1..]| ensures q[1..][i].id != gone { assert q[1..][i] == q[i + 1]; }
      }
      ResizeNames(q[1..], id, n, gone);
      var r := Resize(q, id, n);
      forall i | 0 <= i < |r| ensures r[i].id != gone {
        if i > 0 {
          if q[0].id == id { assert r[i] == q[1..][i - 1]; } else { assert r[i] == Resize(q[1..], id, n)[i - 1]; }
        }
      }
    }
  }

  /** The command submits an order under this id. */
  predicate Submits(c: BookCommand, id: OrderId) {
    (c.LimitCmd? || c.MarketCmd?) && c.id == id
  }

  lemma {:induction false} StepNames(st: Storage, b: Book, c: BookCommand, gone: OrderId)
    requires !Contains(b, gone) && !Submits(c, gone)
    ensures var a := Apply(st, b, c); !Mentions(a.trades, gone) && !Contains(a.book, gone)
  {
    hide Match, Has, CanApplyModify, AddLimit, Cancel, Mentions, Find, Resize;
    NobodyNamed(gone);
    match c
    case LimitCmd(id, side, price, quantity, tif) => LimitNames(st, b, id, side, price, quantity, tif, gone);
    case MarketCmd(id, side, quantity) =>
      MatchNames(Taker(id, side, true, 0), SideOf(b, Opposite(side)), quantity, gone);
    case CancelCmd(id) => CancelNames(b, id, gone);
    case ModifyCmd(id, price, quantity) =>
      if Contains(b, id) {
        var side := Find(b, id).side;
        CancelNames(b, id, gone);
        ResizeNames(SideOf(b, side), id, quantity, gone);
        LimitNames(st, Cancel(b, id), id, side, price, quantity, GTC, gone);
      }
  }

  /**
   * An order that does not rest, because it was cancelled, refused or filled, neither trades nor rests again
   * in any run that does not submit its id anew.
   */
  lemma {:induction false} GoneStaysGone(st: Storage, b: Book, cs: seq<BookCommand>, gone: OrderId)
    requires !Contains(b, gone) && forall i :: 0 <= i < |cs| ==> !Submits(cs[i], gone)
    ensures var run := Run(st, b, cs);
            !Contains(run.0, gone) && forall i :: 0 <= i < |run.1| ==> !Mentions(run.1[i], gone)
    decreases |cs|
  {
    hide Apply, Mentions, Contains;
    if cs != [] {
      StepNames(st, b, cs[0], gone);
      GoneStaysGone(st, Apply(st, b, cs[0]).book, cs[1..], gone);
    }
  }

  // ---- When a storage may refuse -------------------------------------------------------------

  /** A limit order is refused exactly when the storage could not hold the book it would leave. */
  lemma {:induction false} LimitGateIsExact(st: Storage, b: Book, id: OrderId, side: Side, price: Price,
                                            quantity: Quantity, tif: TimeInForce)
    requires BookOk(b) && Fits(st, b) && !Contains(b, id)
    ensures CanStoreLimit(st, b, id, side, price, quantity, tif)
            <==> Fits(st, AddLimit(Baseline, b, id, side, price, quantity, tif).book)
  {
    hide BookOk, Contains, Match, Insert;
    if CanStoreLimit(st, b, id, side, price, quantity, tif) {
      LimitKeepsBook(st, b, id, side, price, quantity, tif);
    } else {
      var t := LimitTaker(id, side, price);
      var m := MatchIn(b, t, quantity);
      var crossed := WithSide(b, Opposite(side), m.makers);
      MatchConsumesPrefix(t, SideOf(b, Opposite(side)), quantity);
      var q := SideOf(crossed, side);
      var o := Order(id, side, price, m.remainder);
      var k := InsertSplits(q, o);
      assert Insert(q, o)[k] == o;
    }
  }

  /** A modify is refused exactly when the storage could not hold the book it would leave. */
  lemma {:induction false} ModifyGateIsExact(st: Storage, b: Book, id: OrderId, price: Price, quantity: Quantity)
    requires BookOk(b) && Fits(st, b)
    ensures CanApplyModify(st, b, id, price, quantity) <==> Fits(st, Modify(Baseline, b, id, price, quantity).book)
  {
    hide BookOk, Contains, Find, Match, AddLimit, Cancel, Resize, Fits, CanStoreLimit;
    if CanApplyModify(st, b, id, price, quantity) {
      ModifyKeepsBook(st, b, id, price, quantity);
      StepAgreesWithBaseline(st, b, ModifyCmd(id, price, quantity));
    } else {
      var o := Find(b, id);
      CancelKeepsBook(st, b, id);
      CancelRemoves(b, id);
      LimitGateIsExact(st, Cancel(b, id), id, o.side, price, quantity, GTC);
      GateAfterCancel(st, b, id, price, quantity);
    }
  }

  lemma {:induction false} GateAfterCancel(st: Storage, b: Book, id: OrderId, price: Price, quantity: Quantity)
    requires BookOk(b) && Contains(b, id) && !CanApplyModify(st, b, id, price, quantity)
    ensures !CanStoreLimit(st, Cancel(b, id), id, Find(b, id).side, price, quantity, GTC)
  {
    hide BookOk, Contains, Find, Match, Cancel;
    CancelRemoves(b, id);
  }

  /** Any command that does not repeat a resting id is refused exactly when the storage could not hold its result. */
  lemma {:induction false} RefusesExactly(st: Storage, b: Book, c: BookCommand)
    requires BookOk(b) && Fits(st, b) && (c.LimitCmd? ==> !Contains(b, c.id))
    ensures Refuses(st, b, c) <==> !Fits(st, Apply(Baseline, b, c).book)
  {
    hide BookOk, Contains, CanStoreLimit, CanApplyModify, AddLimit, AddMarket, Cancel, Modify, Fits;
    match c
    case LimitCmd(id, side, price, quantity, tif) => LimitGateIsExact(st, b, id, side, price, quantity, tif);
    case MarketCmd(id, side, quantity) =>
      StepKeepsBook(st, b, c);
      StepAgreesWithBaseline(st, b, c);
    case CancelCmd(id) => CancelKeepsBook(st, b, id);
    case ModifyCmd(id, price, quantity) => ModifyGateIsExact(st, b, id, price, quantity);
  }

  // ---- What the queries report ---------------------------------------------------------------

  /** The best bid is the highest bid there is and the best ask the lowest ask; there is none on an empty side only. */
  lemma {:induction false} BestIsBest(b: Book)
    requires BookOk(b)
    ensures match BestPrice(b.bids)
            case None => b.bids == []
            case Some(p) => (exists i :: 0 <= i < |b.bids| && b.bids[i].price == p)
                            && forall i :: 0 <= i < |b.bids| ==> b.bids[i].price <= p
    ensures match BestPrice(b.asks)
            case None => b.asks == []
            case Some(p) => (exists i :: 0 <= i < |b.asks| && b.asks[i].price == p)
                            && forall i :: 0 <= i < |b.asks| ==> b.asks[i].price >= p
  {
    PricesInOrder(b);
    if b.bids != [] { assert b.bids[0].price == BestPrice(b.bids).value; }
    if b.asks != [] { assert b.asks[0].price == BestPrice(b.asks).value; }
  }

  /** The listing holds every resting order and no other, bids before asks, each side best first. */
  lemma {:induction false} ListsEveryOrder(b: Book)
    requires BookOk(b)
    ensures var all := RestingOrders(b);
            && |all| == OrderCount(b) && multiset(all) == multiset(b.bids) + multiset(b.asks)
            && (forall i, j :: 0 <= i < j < |all| ==>
                  && !(all[i].side.Sell? && all[j].side.Buy?)
                  && (all[i].side == all[j].side ==> !Worse(all[i].side, all[i].price, all[j].price)))
  {
    PricesInOrder(b);
    assert LiveOn(Buy, b.bids) && LiveOn(Sell, b.asks);
  }

  /** One order more adds its quantity at its own price and nothing at any other. */
  lemma {:induction false} OneOrderMore(a: seq<Order>, o: Order, c: seq<Order>, price: Price)
    ensures QuantityAt([], price) == 0
    ensures QuantityAt(a + [o] + c, price)
            == QuantityAt(a + c, price) + (if o.price == price then o.quantity else 0)
  {
    QuantityAtConcat(a + [o], c, price);
    QuantityAtConcat(a, [o], price);
    QuantityAtConcat(a, c, price);
    assert [o][1..] == [];
  }

  ghost predicate ListsPrice(ls: seq<LevelView>, price: Price) {
    exists j :: 0 <= j < |ls| && ls[j].price == price
  }

  /** Best price first, one level per price, each with all that rests there. */
  ghost predicate LevelsOk(side: Side, q: seq<Order>, ls: seq<LevelView>) {
    && (forall i, j :: 0 <= i < j < |ls| ==> Worse(side, ls[j].price, ls[i].price))
    && (forall j :: 0 <= j < |ls| ==> ls[j].quantity == QuantityAt(q, ls[j].price) > 0)
    && (forall i :: 0 <= i < |q| ==> ListsPrice(ls, q[i].price))
  }

  lemma {:induction false} LevelsAreTotals(side: Side, q: seq<Order>)
    requires Sorted(side, q) && LiveOn(side, q)
    ensures LevelsOk(side, q, Levels(q))
    decreases |q|
  {
    hide Levels, LevelsOk, Sorted, LiveOn;
    LevelsStep(side, q);
    if q != [] {
      var rest := Levels(q[1..]);
      RestOk(side, q);
      LevelsAreTotals(side, q[1..]);
      LevelsFront(q[1..]);
      if rest != [] && rest[0].price == q[0].price {
        LevelJoins(side, q, rest);
      } else {
        LevelOpens(side, q, rest);
      }
    }
  }

  lemma {:induction false} LevelsStep(side: Side, q: seq<Order>)
    ensures q == [] ==> LevelsOk(side, q, Levels(q))
    ensures q != [] ==>
              var rest := Levels(q[1..]);
              Levels(q) == if rest != [] && rest[0].price == q[0].price
                           then [LevelView(q[0].price, q[0].quantity + rest[0].quantity)] + rest[1..]
                           else [LevelView(q[0].price, q[0].quantity)] + rest
  {
  }

  lemma {:induction false} RestOk(side: Side, q: seq<Order>)
    requires q != [] && Sorted(side, q) && LiveOn(side, q)
    ensures q[0].quantity > 0 && Sorted(side, q[1..]) && LiveOn(side, q[1..])
  {
  }

  lemma {:induction false} LevelJoins(side: Side, q: seq<Order>, rest: seq<LevelView>)
    requires q != [] && LevelsOk(side, q[1..], rest) && rest != [] && rest[0].price == q[0].price
    ensures LevelsOk(side, q, [LevelView(q[0].price, q[0].quantity + rest[0].quantity)] + rest[1..])
  {
    var ls := [LevelView(q[0].price, q[0].quantity + rest[0].quantity)] + rest[1..];
    assert forall j :: 0 <= j < |ls| ==> ls[j].price == rest[j].price;
    forall i | 0 <= i < |q| ensures ListsPrice(ls, q[i].price) {
      if i == 0 {
        assert ls[0].price == q[0].price;
      } else {
        assert ListsPrice(rest, q[1..][i - 1].price);
        var j :| 0 <= j < |rest| && rest[j].price == q[i].price;
        assert ls[j].price == q[i].price;
      }
    }
  }

  lemma {:induction false} LevelOpens(side: Side, q: seq<Order>, rest: seq<LevelView>)
    requires q != [] && q[0].quantity > 0 && Sorted(side, q) && LevelsOk(side, q[1..], rest)
    requires rest != [] ==> q[1..] != [] && rest[0].price == q[1].price && rest[0].price != q[0].price
    ensures LevelsOk(side, q, [LevelView(q[0].price, q[0].quantity)] + rest)
  {
    var p, ls := q[0].price, [LevelView(q[0].price, q[0].quantity)] + rest;
    forall i | 1 <= i < |q| ensures Worse(side, q[i].price, p) {
      assert ListsPrice(rest, q[1..][i - 1].price);
      assert !Better(side, q[1].price, q[0].price);
      if i > 1 { assert !Better(side, q[i].price, q[1].price); }
    }
    QuantityAtUniform(q[1..], p, false);
    forall j | 0 <= j < |rest| ensures Worse(side, rest[j].price, p) {
      if j > 0 { assert Worse(side, rest[j].price, rest[0].price); }
    }
    forall i | 0 <= i < |q| ensures ListsPrice(ls, q[i].price) {
      if i == 0 {
        assert ls[0].price == p;
      } else {
        assert ListsPrice(rest, q[1..][i - 1].price);
        var j :| 0 <= j < |rest| && rest[j].price == q[i].price;
        assert ls[j + 1].price == q[i].price;
      }
    }
  }
}
