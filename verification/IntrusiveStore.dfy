/**
 * The intrusive storage: FIFO levels of linked pool nodes over two fixed pools with free lists.
 * Every operation is proved to do to the book exactly what the reference book does.
 */
module IntrusiveStore {
  import opened Types
  import opened BookSpec
  import opened BookTheorems
  import opened BookQueries
  import opened MatchSteps
  import opened PriceMap
  import opened NodeChains
  import opened NodeRep
  import opened SlotPool

  ghost function BookOf(r: Rep, ch: Chains): Book
    requires |ch.bids| == |r.bids| && |ch.asks| == |r.asks|
  {
    Book(Flatten(MapView(r, ch, Buy)), Flatten(MapView(r, ch, Sell)))
  }

  /** No empty level, and a reachable book. */
  ghost predicate Settled(r: Rep, ch: Chains) {
    && RepOk(r, ch)
    && Grouped(MapView(r, ch, Buy)) && Grouped(MapView(r, ch, Sell))
    && BookOk(BookOf(r, ch))
  }

  // ---- The index and the book ----------------------------------------------------------------

  lemma {:induction false} SidesMatch(r: Rep, ch: Chains)
    requires RepOk(r, ch)
    ensures |ch.bids| == |r.bids| && |ch.asks| == |r.asks|
    ensures Bijective(r)
  {
  }

  /** Every queued order is the order of some live node. */
  lemma {:induction false} QueuedHasNode(r: Rep, ch: Chains, side: Side, q: nat) returns (n: nat)
    requires RepOk(r, ch) && |ChainsOf(ch, side)| == |LevelsOf(r, side)| && q < |Flatten(MapView(r, ch, side))|
    ensures n in r.nodes && Flatten(MapView(r, ch, side))[q] == At(r, n)
  {
    hide RepOk, Flatten, ChainOk, At;
    var m := MapView(r, ch, side);
    var i, k := FlattenFrom(m, q);
    ChainAt(r, ch, side, i);
    ViewIs(r, ch, side, i);
    n := ChainsOf(ch, side)[i][k];
    HomedAt(r, ChainsOf(ch, side)[i], side, LevelsOf(r, side)[i].price, k);
  }

  /** Where a live node's order stands in its side's queue. */
  lemma {:induction false} NodeIsQueued(r: Rep, ch: Chains, n: nat)
    requires n in r.nodes && RepOk(r, ch)
    requires |ChainsOf(ch, At(r, n).side)| == |LevelsOf(r, At(r, n).side)|
    ensures At(r, n) in Flatten(MapView(r, ch, At(r, n).side))
  {
    hide RepOk, Flatten, ChainOk;
    var side := At(r, n).side;
    var i, k := NodePlace(r, ch, n);
    var m := MapView(r, ch, side);
    ViewIs(r, ch, side, i);
    FlattenAt(m, i);
    assert Flatten(m)[|Flatten(m[..i])| + k] == m[i].orders[k];
  }

  lemma {:induction false} DistinctLookup(q: seq<Order>, o: Order)
    requires DistinctIds(q) && o in q
    ensures Has(q, o.id) && Lookup(q, o.id) == o
  {
    var i :| 0 <= i < |q| && q[i] == o;
    var k := RemoveSplits(q, o.id);
  }

  /** `contains` and the locator answer exactly what the book says. */
  lemma {:induction false} IndexIsTheBook(r: Rep, ch: Chains, id: OrderId)
    requires Settled(r, ch)
    ensures Contains(BookOf(r, ch), id) <==> id in r.index
    ensures id in r.index ==>
              && r.index[id].node in r.nodes
              && Find(BookOf(r, ch), id) == At(r, r.index[id].node)
              && r.index[id].side == At(r, r.index[id].node).side && r.index[id].price == At(r, r.index[id].node).price
  {
    hide RepOk, Flatten, MapView, At, Grouped, Lookup;
    SidesMatch(r, ch);
    var b := BookOf(r, ch);
    if Contains(b, id) {
      var side := if Has(b.bids, id) then Buy else Sell;
      var s := Flatten(MapView(r, ch, side));
      var q :| 0 <= q < |s| && s[q].id == id;
      var n := QueuedHasNode(r, ch, side, q);
    }
    if id in r.index {
      var n := r.index[id].node;
      NodeIsQueued(r, ch, n);
      DistinctLookup(Flatten(MapView(r, ch, At(r, n).side)), At(r, n));
      var o := At(r, n);
      OnOneSide(b, o.side, id);
    }
  }

  lemma {:induction false} OnOneSide(b: Book, side: Side, id: OrderId)
    requires BookOk(b) && Has(SideOf(b, side), id)
    ensures Contains(b, id) && Find(b, id) == Lookup(SideOf(b, side), id)
  {
  }

  lemma {:induction false} CountIsTheBook(r: Rep, ch: Chains)
    requires Settled(r, ch)
    ensures |r.nodes| == OrderCount(BookOf(r, ch)) && |r.orders| == OrderCount(BookOf(r, ch))
  {
    hide RepOk, Flatten, MapView, Settled, Has;
    SettledParts(r, ch);
    SlotsInStep(r);
    var all := BookOf(r, ch).bids + BookOf(r, ch).asks;
    forall id ensures id in r.index.Keys <==> Has(all, id) {
      IndexIsTheBook(r, ch, id);
      HasConcat(BookOf(r, ch).bids, BookOf(r, ch).asks, id);
    }
    CountByIds(all, r.index.Keys);
    assert |r.index.Keys| == |r.index|;
  }

  lemma {:induction false} SettledParts(r: Rep, ch: Chains)
    requires Settled(r, ch)
    ensures RepOk(r, ch) && Bijective(r)
    ensures |ch.bids| == |r.bids| && |ch.asks| == |r.asks|
    ensures BookOk(BookOf(r, ch)) && DistinctIds(BookOf(r, ch).bids + BookOf(r, ch).asks)
    ensures Grouped(MapView(r, ch, Buy)) && Grouped(MapView(r, ch, Sell))
  {
    hide Flatten, MapView, Grouped;
  }

  lemma {:induction false} EmptySettled(r: Rep, ch: Chains)
    requires r == Rep(map[], map[], [], [], map[]) && ch == Chains([], [])
    ensures Settled(r, ch) && BookOf(r, ch) == EMPTY_BOOK
  {
    assert MapView(r, ch, Buy) == [] && MapView(r, ch, Sell) == [];
  }

  lemma {:induction false} ChainsMatch(r: Rep, ch: Chains, side: Side)
    requires RepOk(r, ch)
    ensures |ChainsOf(ch, side)| == |LevelsOf(r, side)|
  {
  }

  lemma {:induction false} SizeIsLength(nodes: map<nat, Node>, l: NodeLevel, c: seq<nat>)
    requires ChainOk(nodes, l, c)
    ensures l.size == |c| && l.head == First(c)
  {
  }

  // ---- Hitting the front of a side -----------------------------------------------------------

  ghost predicate HasFront(ch: Chains, side: Side) {
    ChainsOf(ch, side) != [] && ChainsOf(ch, side)[0] != []
  }

  ghost function FrontOrder(r: Rep, ch: Chains, side: Side): Order
    requires HasFront(ch, side)
  {
    At(r, ChainsOf(ch, side)[0][0])
  }

  /** The state after the front maker of a side gave up `traded`. */
  ghost predicate HitState(r: Rep, ch: Chains, side: Side, traded: Quantity, u: Rep, uh: Chains)
    requires HasFront(ch, side)
  {
    var n := ChainsOf(ch, side)[0][0];
    if traded == FrontOrder(r, ch, side).quantity then
      CanDrop(r, side, 0, n) && u == Dropped(r, side, 0, n) && uh == DropFrom(ch, side, 0, 0)
    else
      && n in r.nodes && r.nodes[n].order in r.orders && traded <= FrontOrder(r, ch, side).quantity
      && u == Written(r, r.nodes[n].order, FrontOrder(r, ch, side).quantity - traded) && uh == ch
  }

  /** The map of a side after its front level lost `traded` from its first order. */
  ghost function HitMap(m: LevelMap, traded: Quantity): LevelMap
    requires m != [] && m[0].orders != [] && traded <= m[0].orders[0].quantity
  {
    m[0 := Level(m[0].price, FrontHit(m[0].orders, traded))]
  }

  lemma {:induction false} HitView(r: Rep, ch: Chains, side: Side, traded: Quantity, u: Rep, uh: Chains)
    requires HasFront(ch, side) && HitState(r, ch, side, traded, u, uh) && traded <= FrontOrder(r, ch, side).quantity
    requires RepOk(r, ch)
    ensures RepOk(u, uh)
    ensures |ch.bids| == |r.bids| && |ch.asks| == |r.asks| && |uh.bids| == |u.bids| && |uh.asks| == |u.asks|
    ensures var m := MapView(r, ch, side);
            && m[0].orders != [] && m[0].orders[0] == FrontOrder(r, ch, side)
            && MapView(u, uh, side) == HitMap(m, traded)
            && MapView(u, uh, Opposite(side)) == MapView(r, ch, Opposite(side))
  {
    hide RepOk, Dropped, Written, At;
    var n := ChainsOf(ch, side)[0][0];
    SidesMatch(r, ch);
    ViewIs(r, ch, side, 0);
    var v := MapView(r, ch, side)[0].orders;
    if traded == FrontOrder(r, ch, side).quantity {
      DroppedOk(r, ch, side, 0, 0);
      DroppedSides(r, ch, side, 0, 0, side);
      DroppedSides(r, ch, side, 0, 0, Opposite(side));
      assert CutView(v, 0) == v[1..];
    } else {
      var q := FrontOrder(r, ch, side).quantity - traded;
      WrittenOk(r, ch, r.nodes[n].order, q);
      WrittenView(r, ch, side, 0, 0, q);
      assert v[0 := v[0].(quantity := q)] == [v[0].(quantity := q)] + v[1..];
    }
    SidesMatch(u, uh);
  }

  lemma {:induction false} HitIsFrontHit(r: Rep, ch: Chains, side: Side, traded: Quantity, u: Rep, uh: Chains)
    requires HasFront(ch, side) && HitState(r, ch, side, traded, u, uh) && traded <= FrontOrder(r, ch, side).quantity
    requires RepOk(r, ch)
    ensures RepOk(u, uh)
    ensures |ch.bids| == |r.bids| && |ch.asks| == |r.asks| && |uh.bids| == |u.bids| && |uh.asks| == |u.asks|
    ensures var q := SideOf(BookOf(r, ch), side);
            && q != [] && q[0] == FrontOrder(r, ch, side)
            && BookOf(u, uh) == WithSide(BookOf(r, ch), side, FrontHit(q, traded))
  {
    hide RepOk, HitState, At, MapView, FrontOrder;
    HitView(r, ch, side, traded, u, uh);
    ViewCount(r, ch, side);
    var m := MapView(r, ch, side);
    assert HitMap(m, traded)[1..] == m[1..];
    HitPart(m[0].orders, Flatten(m[1..]), traded);
    var l := m[0].orders;
    assert l[0 := l[0].(quantity := l[0].quantity - traded)] == [l[0].(quantity := l[0].quantity - traded)] + l[1..];
  }

  /** Nothing but the front level of `side` changed, and it kept its price. */
  ghost predicate OnlyFront(r: Rep, ch: Chains, u: Rep, uh: Chains, side: Side) {
    && |ch.bids| == |r.bids| && |ch.asks| == |r.asks| && |uh.bids| == |u.bids| && |uh.asks| == |u.asks|
    && LevelsOf(r, side) != [] && LevelsOf(u, side) != []
    && MapView(u, uh, side)[0].price == MapView(r, ch, side)[0].price
    && MapView(u, uh, side)[1..] == MapView(r, ch, side)[1..]
    && (forall p :: AllAt(MapView(r, ch, side)[0].orders, p) ==> AllAt(MapView(u, uh, side)[0].orders, p))
    && MapView(u, uh, Opposite(side)) == MapView(r, ch, Opposite(side))
  }

  lemma {:induction false} OnlyFrontSame(r: Rep, ch: Chains, side: Side)
    requires RepOk(r, ch) && LevelsOf(r, side) != []
    ensures OnlyFront(r, ch, r, ch, side)
  {
    hide RepOk, MapView;
    SidesMatch(r, ch);
    ViewCount(r, ch, side);
  }

  lemma {:induction false} ViewCount(r: Rep, ch: Chains, side: Side)
    requires |ChainsOf(ch, side)| == |LevelsOf(r, side)|
    ensures |MapView(r, ch, side)| == |LevelsOf(r, side)|
  {
  }

  lemma {:induction false} HitOnlyFront(r0: Rep, ch0: Chains, r: Rep, ch: Chains, side: Side, traded: Quantity,
                                        u: Rep, uh: Chains)
    requires OnlyFront(r0, ch0, r, ch, side)
    requires HasFront(ch, side) && HitState(r, ch, side, traded, u, uh) && traded <= FrontOrder(r, ch, side).quantity
    requires RepOk(r, ch)
    ensures OnlyFront(r0, ch0, u, uh, side)
    ensures LevelsOf(u, side) != [] && LevelsOf(u, side)[0].price == LevelsOf(r, side)[0].price
  {
    hide RepOk, HitState, MapView, FrontOrder, FrontHit, AllAt;
    HitView(r, ch, side, traded, u, uh);
    ViewCount(u, uh, side);
    ViewCount(r, ch, side);
    ViewIs(u, uh, side, 0);
    ViewIs(r, ch, side, 0);
    var m := MapView(r, ch, side);
    assert HitMap(m, traded)[1..] == m[1..];
    HitKeepsPrice(m[0].orders, traded);
  }

  lemma {:induction false} HitKeepsPrice(l: seq<Order>, traded: Quantity)
    requires l != [] && traded <= l[0].quantity
    ensures forall p :: AllAt(l, p) ==> AllAt(FrontHit(l, traded), p)
  {
    assert forall k :: 0 <= k < |FrontHit(l, traded)| ==>
        FrontHit(l, traded)[k].price == l[k + |l| - |FrontHit(l, traded)|].price;
  }

  /** The head pointer tells whether the best level has orders. */
  lemma {:induction false} HeadIsFront(r: Rep, ch: Chains, side: Side)
    requires RepOk(r, ch) && LevelsOf(r, side) != []
    ensures |ChainsOf(ch, side)| == |LevelsOf(r, side)|
    ensures LevelsOf(r, side)[0].head.Some? <==> HasFront(ch, side)
  {
    hide RepOk;
    ChainsMatch(r, ch, side);
    ChainAt(r, ch, side, 0);
  }

  lemma {:induction false} FrontIsFirst(r: Rep, ch: Chains, side: Side)
    requires HasFront(ch, side) && RepOk(r, ch) && LevelsOf(r, side) != []
    requires |ch.bids| == |r.bids| && |ch.asks| == |r.asks| && BookOk(BookOf(r, ch))
    ensures SideOf(BookOf(r, ch), side) != [] && SideOf(BookOf(r, ch), side)[0] == FrontOrder(r, ch, side)
    ensures FrontOrder(r, ch, side).quantity > 0 && FrontOrder(r, ch, side).price == LevelsOf(r, side)[0].price
  {
    hide RepOk, BookOk, Homed;
    BookSides(BookOf(r, ch), side);
    ViewIs(r, ch, side, 0);
    ChainAt(r, ch, side, 0);
    HomedAt(r, ChainsOf(ch, side)[0], side, LevelsOf(r, side)[0].price, 0);
    var m := MapView(r, ch, side);
    assert Flatten(m) == m[0].orders + Flatten(m[1..]);
    assert SideOf(BookOf(r, ch), side) == Flatten(m);
  }

  /** In a settled book the best level is the front of the queue. */
  lemma {:induction false} SettledFront(r: Rep, ch: Chains, side: Side)
    requires Settled(r, ch) && |ch.bids| == |r.bids| && |ch.asks| == |r.asks|
    ensures LevelsOf(r, side) == [] ==> SideOf(BookOf(r, ch), side) == []
    ensures LevelsOf(r, side) != [] ==>
              && HasFront(ch, side)
              && SideOf(BookOf(r, ch), side) != []
              && SideOf(BookOf(r, ch), side)[0].price == LevelsOf(r, side)[0].price
  {
    hide RepOk, BookOk, Flatten;
    var m := MapView(r, ch, side);
    ViewCount(r, ch, side);
    FlattenEmpty(m);
    if LevelsOf(r, side) != [] {
      ViewIs(r, ch, side, 0);
    }
  }

  /** After the best level was hit, dropping it if empty settles the store again. */
  lemma {:induction false} SettleFront(r: Rep, ch: Chains, u: Rep, uh: Chains, side: Side, v: Rep, vh: Chains)
    requires Settled(r, ch) && OnlyFront(r, ch, u, uh, side) && RepOk(u, uh) && BookOk(BookOf(u, uh))
    requires if ChainsOf(uh, side)[0] == [] then
               v == Erased(u, side, 0) && vh == WithChains(uh, side, CutLevel(ChainsOf(uh, side), 0))
             else v == u && vh == uh
    requires RepOk(v, vh)
    ensures |vh.bids| == |v.bids| && |vh.asks| == |v.asks|
    ensures Settled(v, vh) && BookOf(v, vh) == BookOf(u, uh)
    ensures SideOf(BookOf(v, vh), Opposite(side)) == SideOf(BookOf(r, ch), Opposite(side))
  {
    hide RepOk, BookOk, View, MapView, Flatten, Grouped;
    SidesMatch(v, vh);
    var m, w := MapView(r, ch, side), MapView(u, uh, side);
    ViewIs(u, uh, side, 0);
    ViewCount(u, uh, side);
    ViewCount(r, ch, side);
    FrontGrouped(m, w);
    if ChainsOf(uh, side)[0] == [] {
      ErasedOk(u, uh, side, 0);
      assert CutLevel(w, 0) == w[1..];
    }
  }

  lemma {:induction false} FrontGrouped(m: LevelMap, w: LevelMap)
    requires Grouped(m) && m != [] && w != [] && w[0].price == m[0].price && w[1..] == m[1..]
    requires forall p :: AllAt(m[0].orders, p) ==> AllAt(w[0].orders, p)
    ensures w[0].orders != [] ==> Grouped(w)
    ensures w[0].orders == [] ==> Grouped(w[1..]) && Flatten(w[1..]) == Flatten(w)
  {
    assert AllAt(m[0].orders, m[0].price);
    assert forall i :: 0 < i < |w| ==> w[i] == w[1..][i - 1] && m[i] == m[1..][i - 1];
    if w[0].orders == [] {
      assert [] + Flatten(w[1..]) == Flatten(w[1..]);
    }
  }

  // ---- Resting -------------------------------------------------------------------------------

  /** An acquired node and its order, not linked in yet. */
  function Staged(r: Rep, n: nat, slot: nat, o: Order): Rep {
    r.(nodes := r.nodes[n := Node(slot, None, None)], orders := r.orders[slot := o])
  }

  /** `e` is `r` with the level for `price` in place at `i`. */
  ghost predicate LevelReady(r: Rep, ch: Chains, e: Rep, eh: Chains, side: Side, i: nat, price: Price) {
    && |ch.bids| == |r.bids| && |ch.asks| == |r.asks| && |eh.bids| == |e.bids| && |eh.asks| == |e.asks|
    && i == LevelSlot(LevelsOf(r, side), side, price) && i < |LevelsOf(e, side)| && i < |ChainsOf(eh, side)|
    && (var ls := LevelsOf(r, side);
        if i < |ls| && ls[i].price == price then e == r && eh == ch
        else
          && MapView(e, eh, side) == PutLevel(MapView(r, ch, side), i, Level(price, []))
          && MapView(e, eh, Opposite(side)) == MapView(r, ch, Opposite(side)))
  }

  /** The state once the level for `price` exists. */
  lemma {:induction false} RestLevel(r: Rep, ch: Chains, side: Side, i: nat, price: Price) returns (e: Rep, eh: Chains)
    requires RepOk(r, ch) && i == LevelSlot(LevelsOf(r, side), side, price)
    ensures RepOk(e, eh) && LevelReady(r, ch, e, eh, side, i, price) && LevelsOf(e, side)[i].price == price
    ensures var ls := LevelsOf(r, side);
            e == if i < |ls| && ls[i].price == price then r else Emplaced(r, side, i, price)
  {
    hide RepOk, MapView, LevelSlot;
    var ls := LevelsOf(r, side);
    SidesMatch(r, ch);
    if i < |ls| && ls[i].price == price {
      e, eh := r, ch;
    } else {
      SlotSplits(r, ch, side, i, price);
      EmplacedOk(r, ch, side, i, price);
      e, eh := Emplaced(r, side, i, price), WithChains(ch, side, PutLevel(ChainsOf(ch, side), i, []));
    }
    SidesMatch(e, eh);
  }

  lemma {:induction false} SlotSplits(r: Rep, ch: Chains, side: Side, i: nat, price: Price)
    requires RepOk(r, ch) && i == LevelSlot(LevelsOf(r, side), side, price)
    requires i < |LevelsOf(r, side)| ==> LevelsOf(r, side)[i].price != price
    ensures forall j :: 0 <= j < i ==> Better(side, LevelsOf(r, side)[j].price, price)
    ensures forall j :: i <= j < |LevelsOf(r, side)| ==> Better(side, price, LevelsOf(r, side)[j].price)
  {
    hide SideChains, Bijective, Covered, LevelSlot;
    var ls := LevelsOf(r, side);
    assert SortedLevels(side, ls);
    forall j | i <= j < |ls| ensures Better(side, price, ls[j].price) {
      if j > i { assert Better(side, ls[i].price, ls[j].price); }
    }
  }

  lemma {:induction false} RestTail(e: Rep, eh: Chains, side: Side, i: nat)
    requires RepOk(e, eh) && i < |LevelsOf(e, side)|
    ensures LevelsOf(e, side)[i].tail.Some? ==> LevelsOf(e, side)[i].tail.value in e.nodes
    ensures i < |ChainsOf(eh, side)|
  {
    hide RepOk, NoRepeat, Homed;
    ChainsMatch(e, eh, side);
    ChainAt(e, eh, side, i);
  }

  /** Adding the node is pushing onto the price map. */
  lemma {:induction false} RestView(r: Rep, ch: Chains, e: Rep, eh: Chains, side: Side, i: nat, n: nat, slot: nat,
                                    o: Order,
                                    u: Rep, uh: Chains)
    requires LevelReady(r, ch, e, eh, side, i, o.price)
    requires CanAdd(e, side, i, n, slot, o) && u == Added(e, side, i, n, slot, o) && uh == AddTo(eh, side, i, n)
    requires RepOk(e, eh)
    ensures RepOk(u, uh) && |uh.bids| == |u.bids| && |uh.asks| == |u.asks|
    ensures MapView(u, uh, side) == Push(MapView(r, ch, side), side, o)
    ensures MapView(u, uh, Opposite(side)) == MapView(r, ch, Opposite(side))
  {
    hide RepOk, MapView, Added, CanAdd, LevelSlot, Slot, Push, AddTo, PutLevel;
    AddedOk(e, eh, side, i, n, slot, o, u);
    SidesMatch(u, uh);
    AddedSides(e, eh, side, i, n, slot, o, u, side);
    AddedSides(e, eh, side, i, n, slot, o, u, Opposite(side));
    RestIsPush(r, ch, e, eh, side, i, n, o, u, uh);
  }

  lemma {:induction false} RestSettled(r: Rep, ch: Chains, u: Rep, uh: Chains, side: Side, o: Order)
    requires Settled(r, ch) && |ch.bids| == |r.bids| && |ch.asks| == |r.asks|
    requires RepOk(u, uh) && |uh.bids| == |u.bids| && |uh.asks| == |u.asks|
    requires MapView(u, uh, side) == Push(MapView(r, ch, side), side, o)
    requires MapView(u, uh, Opposite(side)) == MapView(r, ch, Opposite(side))
    requires o.quantity > 0 && !Contains(BookOf(r, ch), o.id) && o.side == side
    requires SideOf(BookOf(r, ch), Opposite(side)) != [] ==>
               !Crosses(LimitTaker(o.id, side, o.price), SideOf(BookOf(r, ch), Opposite(side))[0].price)
    ensures Settled(u, uh)
    ensures BookOf(u, uh) == WithSide(BookOf(r, ch), side, Insert(SideOf(BookOf(r, ch), side), o))
  {
    hide RepOk, BookOk, MapView, Flatten, Grouped, Insert, Contains, Crosses, Push;
    var m := MapView(r, ch, side);
    RepSorted(r, ch, side);
    PushIsInsert(side, m, o);
    PushKeepsMap(side, m, o);
    RestKeepsBook(Baseline, BookOf(r, ch), o);
  }

  lemma {:induction false} RepSorted(r: Rep, ch: Chains, side: Side)
    requires RepOk(r, ch) && |ch.bids| == |r.bids| && |ch.asks| == |r.asks|
    ensures SortedMap(side, MapView(r, ch, side))
  {
    hide SideChains, Bijective, Covered;
    ViewSorted(r, ch, side);
  }

  lemma {:induction false} RestIsPush(r: Rep, ch: Chains, e: Rep, eh: Chains, side: Side, i: nat, n: nat, o: Order,
                                      u: Rep,
                                      uh: Chains)
    requires |ch.bids| == |r.bids| && |ch.asks| == |r.asks| && |eh.bids| == |e.bids| && |eh.asks| == |e.asks|
    requires i == LevelSlot(LevelsOf(r, side), side, o.price) && i < |LevelsOf(e, side)|
    requires var ls := LevelsOf(r, side);
             if i < |ls| && ls[i].price == o.price then e == r && eh == ch
             else MapView(e, eh, side) == PutLevel(MapView(r, ch, side), i, Level(o.price, []))
    requires |uh.bids| == |u.bids| && |uh.asks| == |u.asks|
    requires var m := MapView(e, eh, side);
             MapView(u, uh, side) == m[i := Level(m[i].price, m[i].orders + [o])]
    ensures MapView(u, uh, side) == Push(MapView(r, ch, side), side, o)
  {
    hide MapView, LevelSlot, Slot;
    SlotsAgree(r, ch, side, o.price);
    ViewCount(e, eh, side);
    var m := MapView(r, ch, side);
    if i < |LevelsOf(r, side)| {
      ViewIs(r, ch, side, i);
    }
    if !(i < |LevelsOf(r, side)| && LevelsOf(r, side)[i].price == o.price) {
      var p := PutLevel(m, i, Level(o.price, []));
      assert p[i] == Level(o.price, []) && [] + [o] == [o];
      assert p[i := Level(o.price, [o])] == m[..i] + [Level(o.price, [o])] + m[i..];
    }
  }

  // ---- Removing and reducing -----------------------------------------------------------------

  /** Where the locator of an indexed order leads. */
  lemma {:induction false} Placed(r: Rep, ch: Chains, id: OrderId) returns (i: nat, k: nat)
    requires Settled(r, ch) && id in r.index
    ensures |ch.bids| == |r.bids| && |ch.asks| == |r.asks| && Contains(BookOf(r, ch), id)
    ensures var loc := r.index[id];
            && i == LevelSlot(LevelsOf(r, loc.side), loc.side, loc.price) && i < |LevelsOf(r, loc.side)|
            && k < |ChainsOf(ch, loc.side)[i]| && ChainsOf(ch, loc.side)[i][k] == loc.node
            && loc.node in r.nodes && r.nodes[loc.node].order in r.orders
            && At(r, loc.node) == Find(BookOf(r, ch), id)
            && loc.side == Find(BookOf(r, ch), id).side && loc.price == Find(BookOf(r, ch), id).price
            && Find(BookOf(r, ch), id).id == id
  {
    hide RepOk, Settled, At, LevelSlot, BookOf, Find, Contains;
    SettledParts(r, ch);
    IndexIsTheBook(r, ch, id);
    NodeOfId(r, id);
    var loc := r.index[id];
    i, k := NodePlace(r, ch, loc.node);
    LevelSlotIs(r, ch, loc.side, i);
  }

  lemma {:induction false} LevelSlotIs(r: Rep, ch: Chains, side: Side, i: nat)
    requires RepOk(r, ch) && i < |LevelsOf(r, side)|
    ensures LevelSlot(LevelsOf(r, side), side, LevelsOf(r, side)[i].price) == i
  {
    hide SideChains, Bijective, Covered, LevelSlot;
    var ls := LevelsOf(r, side);
    assert SortedLevels(side, ls);
    var s := LevelSlot(ls, side, ls[i].price);
    assert forall j :: 0 <= j < i ==> Better(side, ls[j].price, ls[i].price);
  }

  /** In a queue of distinct ids, a position is an id. */
  lemma {:induction false} PositionIsId(v: seq<Order>, k: nat, n: Quantity)
    requires DistinctIds(v) && k < |v|
    ensures Has(v, v[k].id) && Remove(v, v[k].id) == CutView(v, k)
    ensures Resize(v, v[k].id, n) == v[k := v[k].(quantity := n)]
  {
    hide Remove, Resize;
    var j := RemoveSplits(v, v[k].id);
    ResizeAt(v, v[k].id, n, j);
  }

  lemma {:induction false} LevelDistinct(m: LevelMap, i: nat)
    requires DistinctIds(Flatten(m)) && i < |m|
    ensures DistinctIds(m[i].orders)
  {
    hide Flatten;
    FlattenAt(m, i);
    var d := |Flatten(m[..i])|;
    assert forall k :: 0 <= k < |m[i].orders| ==> Flatten(m)[d + k] == m[i].orders[k];
  }

  /** Taking out the located node, and its level if that was its last, is the reference cancel. */
  lemma {:induction false} CancelSettles(r: Rep, ch: Chains, id: OrderId, i: nat, k: nat, u: Rep, uh: Chains, v: Rep,
                                         vh: Chains)
    requires Settled(r, ch) && id in r.index
    requires var side := r.index[id].side;
             && i < |ChainsOf(ch, side)| && k < |ChainsOf(ch, side)[i]| && ChainsOf(ch, side)[i][k] == r.index[id].node
             && i < |LevelsOf(r, side)| && i == LevelSlot(LevelsOf(r, side), side, r.index[id].price)
             && CanDrop(r, side, i, r.index[id].node)
             && u == Dropped(r, side, i, r.index[id].node) && uh == DropFrom(ch, side, i, k)
             && i < |LevelsOf(u, side)| && i < |ChainsOf(uh, side)|
             && if ChainsOf(uh, side)[i] == [] then
                  v == Erased(u, side, i) && vh == WithChains(uh, side, CutLevel(ChainsOf(uh, side), i))
                else v == u && vh == uh
    requires RepOk(u, uh) && RepOk(v, vh)
    ensures |ch.bids| == |r.bids| && |ch.asks| == |r.asks| && |vh.bids| == |v.bids| && |vh.asks| == |v.asks|
    ensures Settled(v, vh) && BookOf(v, vh) == Cancel(BookOf(r, ch), id)
  {
    hide RepOk, BookOk, MapView, Flatten, Grouped, SortedMap, LevelSlot;
    hide Slot, Dropped, CanDrop, Find, Contains, Cancel, DropFrom;
    hide At, CutView, Remove, DistinctIds, Lookup;
    var side := r.index[id].side;
    SettledParts(r, ch);
    IndexIsTheBook(r, ch, id);
    SidesMatch(u, uh);
    SidesMatch(v, vh);
    RepSorted(r, ch, side);
    var m, b := MapView(r, ch, side), BookOf(r, ch);
    SlotsAgree(r, ch, side, r.index[id].price);
    ErasedLevel(b, side, m, id);
    CancelKeepsBook(Baseline, b, id);
    NodeOfId(r, id);
    BookSides(b, side);
    CutIsRemoved(r, ch, side, i, k, id);
    DroppedSides(r, ch, side, i, k, side);
    DroppedSides(r, ch, side, i, k, Opposite(side));
    ViewIs(u, uh, side, i);
    if ChainsOf(uh, side)[i] == [] {
      ErasedOk(u, uh, side, i);
      ViewCount(u, uh, side);
    }
    CutOrSet(m, i, Remove(m[i].orders, id));
  }

  lemma {:induction false} CutIsRemoved(r: Rep, ch: Chains, side: Side, i: nat, k: nat, id: OrderId)
    requires |ChainsOf(ch, side)| == |LevelsOf(r, side)| && i < |LevelsOf(r, side)| && k < |ChainsOf(ch, side)[i]|
    requires At(r, ChainsOf(ch, side)[i][k]).id == id && DistinctIds(Flatten(MapView(r, ch, side)))
    ensures |MapView(r, ch, side)| == |LevelsOf(r, side)|
    ensures var v := MapView(r, ch, side)[i].orders;
            && k < |v| && v[k] == At(r, ChainsOf(ch, side)[i][k])
            && CutView(v, k) == Remove(v, id)
            && forall n :: Resize(v, id, n) == v[k := v[k].(quantity := n)]
  {
    hide MapView, Flatten, Remove, CutView, Resize, DistinctIds;
    ViewCount(r, ch, side);
    ViewIs(r, ch, side, i);
    LevelDistinct(MapView(r, ch, side), i);
    forall n ensures Resize(MapView(r, ch, side)[i].orders, id, n)
                     == MapView(r, ch, side)[i].orders[k := MapView(r, ch, side)[i].orders[k].(quantity := n)]
    {
      PositionIsId(MapView(r, ch, side)[i].orders, k, n);
    }
    PositionIsId(MapView(r, ch, side)[i].orders, k, 0);
  }

  lemma {:induction false} DroppedCounts(r: Rep, ch: Chains, side: Side, i: nat, k: nat, u: Rep, uh: Chains)
    requires i < |ChainsOf(ch, side)| && k < |ChainsOf(ch, side)[i]| && CanDrop(r, side, i, ChainsOf(ch, side)[i][k])
    requires u == Dropped(r, side, i, ChainsOf(ch, side)[i][k]) && uh == DropFrom(ch, side, i, k)
    ensures i < |LevelsOf(u, side)| && i < |ChainsOf(uh, side)|
  {
    hide UnlinkNode, UnlinkLevel, Cut;
  }

  lemma {:induction false} CutOrSet(m: LevelMap, i: nat, l: seq<Order>)
    requires i < |m|
    ensures SetOrders(m, i, l)
            == if l == [] then CutLevel(m[i := Level(m[i].price, l)], i) else m[i := Level(m[i].price, l)]
  {
  }

  /** Writing the located order's quantity is the reference in-place reduction. */
  lemma {:induction false} ReduceSettles(r: Rep, ch: Chains, id: OrderId, i: nat, k: nat, quantity: Quantity, u: Rep)
    requires Settled(r, ch) && id in r.index && quantity > 0
    requires var loc := r.index[id];
             && i < |ChainsOf(ch, loc.side)| && k < |ChainsOf(ch, loc.side)[i]|
             && ChainsOf(ch, loc.side)[i][k] == loc.node
             && i < |LevelsOf(r, loc.side)| && i == LevelSlot(LevelsOf(r, loc.side), loc.side, loc.price)
             && loc.node in r.nodes && r.nodes[loc.node].order in r.orders
             && u == Written(r, r.nodes[loc.node].order, quantity)
    ensures |ch.bids| == |r.bids| && |ch.asks| == |r.asks| && |u.bids| == |r.bids| && |u.asks| == |r.asks|
    ensures Settled(u, ch)
    ensures var side := r.index[id].side;
            BookOf(u, ch) == WithSide(BookOf(r, ch), side, Resize(SideOf(BookOf(r, ch), side), id, quantity))
  {
    hide RepOk, BookOk, MapView, Flatten, Grouped, SortedMap, LevelSlot, Slot, Find, Contains, Resize;
    hide At, CutView, Remove, DistinctIds, Lookup;
    var side := r.index[id].side;
    SettledParts(r, ch);
    IndexIsTheBook(r, ch, id);
    RepSorted(r, ch, side);
    var m, b := MapView(r, ch, side), BookOf(r, ch);
    SlotsAgree(r, ch, side, r.index[id].price);
    ResizedLevel(b, side, m, id, quantity);
    NodeOfId(r, id);
    BookSides(b, side);
    CutIsRemoved(r, ch, side, i, k, id);
    WrittenOk(r, ch, r.nodes[r.index[id].node].order, quantity);
    WrittenView(r, ch, side, i, k, quantity);
  }

  // ---- Room for a remainder ------------------------------------------------------------------

  lemma {:induction false} SimulationIgnoresId(q: seq<Order>, s: Taker, t: Taker, quantity: Quantity)
    requires s == t.(id := s.id)
    ensures Match(s, q, quantity).remainder == Match(t, q, quantity).remainder
    ensures |Match(s, q, quantity).makers| == |Match(t, q, quantity).makers|
    decreases |q|
  {
    if quantity > 0 && q != [] && Crosses(t, q[0].price) {
      SimulationIgnoresId(q[1..], s, t, quantity - Min(quantity, q[0].quantity));
    }
  }

  /** An admitted remainder finds a free slot once the match is over. */
  lemma {:induction false} RoomAfterCross(capacity: nat, b: Book, t: Taker, quantity: Quantity, tif: TimeInForce)
    requires OrderCount(b) <= capacity && MatchIn(b, t, quantity).remainder > 0 && tif.GTC? && !t.isMarket
    requires CanStoreLimit(Intrusive(capacity), b, t.id, t.side, t.limit, quantity, tif)
    ensures OrderCount(WithSide(b, Opposite(t.side), MatchIn(b, t, quantity).makers)) < capacity
  {
    hide Match;
    MatchConsumesPrefix(t, SideOf(b, Opposite(t.side)), quantity);
  }

  // ---- Walking a level -----------------------------------------------------------------------

  lemma {:induction false} ViewPrice(r: Rep, ch: Chains, side: Side, i: nat)
    requires |ChainsOf(ch, side)| == |LevelsOf(r, side)| && i < |LevelsOf(r, side)|
    ensures |MapView(r, ch, side)| == |LevelsOf(r, side)| && MapView(r, ch, side)[i].price == LevelsOf(r, side)[i].price
    ensures LevelOrders(r, ch, side, i) == MapView(r, ch, side)[i].orders
  {
    ViewIs(r, ch, side, i);
  }

  lemma {:induction false} NoEmptyLevel(r: Rep, ch: Chains, side: Side, i: nat)
    requires Settled(r, ch) && i < |LevelsOf(r, side)| && |ChainsOf(ch, side)| == |LevelsOf(r, side)|
    ensures ChainsOf(ch, side)[i] != []
  {
    hide RepOk, BookOk;
    ViewIs(r, ch, side, i);
    assert MapView(r, ch, side)[i].orders != [];
  }

  lemma {:induction false} AtIs(r: Rep, n: nat)
    requires n in r.nodes && r.nodes[n].order in r.orders
    ensures At(r, n) == r.orders[r.nodes[n].order]
  {
  }

  function Cursor(c: seq<nat>, k: nat): Option<nat> {
    if k < |c| then Some(c[k]) else None
  }

  ghost function LevelOrders(r: Rep, ch: Chains, side: Side, i: nat): seq<Order>
    requires |ChainsOf(ch, side)| == |LevelsOf(r, side)| && i < |LevelsOf(r, side)|
  {
    MapView(r, ch, side)[i].orders
  }

  /** The `next` pointers of a level visit its queue in order. */
  lemma {:induction false} WalkStep(r: Rep, ch: Chains, side: Side, i: nat, k: nat, c: seq<nat>, v: seq<Order>)
    requires Settled(r, ch) && |ChainsOf(ch, side)| == |LevelsOf(r, side)| && i < |LevelsOf(r, side)|
    requires c == ChainsOf(ch, side)[i] && k < |c| && v == LevelOrders(r, ch, side, i)
    ensures c[k] in r.nodes && r.nodes[c[k]].order in r.orders && r.nodes[c[k]].next == Cursor(c, k + 1)
    ensures k < |v| && v[k] == At(r, c[k]) && v[k].quantity > 0 && v[k].price == LevelsOf(r, side)[i].price
  {
    hide RepOk, BookOk, Flatten, Grouped;
    ChainAt(r, ch, side, i);
    HomedAt(r, c, side, LevelsOf(r, side)[i].price, k);
    ViewIs(r, ch, side, i);
    SettledParts(r, ch);
    BookSides(BookOf(r, ch), side);
    LevelIsLive(MapView(r, ch, side), i, side);
  }

  lemma {:induction false} WalkStart(r: Rep, ch: Chains, side: Side, i: nat)
    requires Settled(r, ch) && |ChainsOf(ch, side)| == |LevelsOf(r, side)| && i < |LevelsOf(r, side)|
    ensures LevelsOf(r, side)[i].head == Cursor(ChainsOf(ch, side)[i], 0)
    ensures |LevelOrders(r, ch, side, i)| == |ChainsOf(ch, side)[i]|
  {
    hide RepOk, BookOk, Flatten, Grouped;
    ChainAt(r, ch, side, i);
    ViewIs(r, ch, side, i);
  }

  /** The queue from level `i` on. */
  ghost function Ahead(r: Rep, ch: Chains, side: Side, i: nat): seq<Order>
    requires |ChainsOf(ch, side)| == |LevelsOf(r, side)| && i <= |LevelsOf(r, side)|
  {
    assert |MapView(r, ch, side)| == |LevelsOf(r, side)|;
    Flatten(MapView(r, ch, side)[i..])
  }

  lemma {:induction false} AheadIs(r: Rep, ch: Chains, side: Side, i: nat)
    requires Settled(r, ch) && |ch.bids| == |r.bids| && |ch.asks| == |r.asks| && i <= |LevelsOf(r, side)|
    ensures i == 0 ==> Ahead(r, ch, side, i) == SideOf(BookOf(r, ch), side)
    ensures i == |LevelsOf(r, side)| ==> Ahead(r, ch, side, i) == []
    ensures i < |LevelsOf(r, side)| ==>
              && Ahead(r, ch, side, i) == LevelOrders(r, ch, side, i) + Ahead(r, ch, side, i + 1)
              && Ahead(r, ch, side, i) != [] && Ahead(r, ch, side, i)[0].price == LevelsOf(r, side)[i].price
  {
    hide RepOk, BookOk, View;
    var m := MapView(r, ch, side);
    assert m[0..] == m;
    if i < |LevelsOf(r, side)| {
      ViewIs(r, ch, side, i);
      assert m[i..][0] == m[i] && m[i..][1..] == m[i + 1..];
    }
  }

  class Store {
    const orders: Pool<Order>
    const nodes: Pool<Node>
    var bids: seq<NodeLevel>
    var asks: seq<NodeLevel>
    var index: map<OrderId, Locator>
    ghost var bidChains: seq<seq<nat>>
    ghost var askChains: seq<seq<nat>>

    ghost function Repr(): set<object> {
      {this, orders, orders.slots, orders.live, orders.free, nodes, nodes.slots, nodes.live, nodes.free}
    }

    ghost predicate PoolsOk()
      reads orders, orders.slots, orders.live, orders.free, nodes, nodes.slots, nodes.live, nodes.free
    {
      && orders.Valid() && nodes.Valid()
      && orders as object != nodes as object
      && orders.live != nodes.live && orders.free != nodes.free
      && {orders.slots as object} !! {nodes.slots as object, nodes.live as object, nodes.free as object}
      && {nodes.slots as object} !! {orders.live as object, orders.free as object}
      && {orders.live as object} !! {nodes.free as object}
      && {orders.free as object} !! {nodes.live as object}
      && orders.slots.Length == nodes.slots.Length
    }

    ghost function State(): Rep
      reads this, orders, orders.slots, orders.live, orders.free, nodes, nodes.slots, nodes.live, nodes.free
      requires PoolsOk()
    {
      Rep(nodes.Held(), orders.Held(), bids, asks, index)
    }

    ghost function Ch(): Chains
      reads this
    {
      Chains(bidChains, askChains)
    }

    ghost predicate Linkage()
      reads this, orders, orders.slots, orders.live, orders.free, nodes, nodes.slots, nodes.live, nodes.free
    {
      PoolsOk() && RepOk(State(), Ch())
    }

    ghost predicate Valid()
      reads this, orders, orders.slots, orders.live, orders.free, nodes, nodes.slots, nodes.live, nodes.free
    {
      Linkage() && Settled(State(), Ch())
    }

    ghost function Book(): Book
      reads this, orders, orders.slots, orders.live, orders.free, nodes, nodes.slots, nodes.live, nodes.free
      requires Linkage()
    {
      BookOf(State(), Ch())
    }

    /** In every valid store, each level's links spell out one FIFO chain of its own orders. */
    lemma ChainFacts(side: Side, i: nat)
      requires Valid() && i < |Levels(side)|
      ensures i < |ChainsOf(Ch(), side)|
      ensures var c, l := ChainsOf(Ch(), side)[i], Levels(side)[i];
              && c != [] && ChainOk(nodes.Held(), l, c) && Homed(State(), c, side, l.price)
    {
      hide RepOk, Settled, Pool.Valid, ChainOk, Homed;
      SettledParts(State(), Ch());
      ChainAt(State(), Ch(), side, i);
      NoEmptyLevel(State(), Ch(), side, i);
    }

    /** Live order slots, live node slots and index entries are in bijection, and the rest of both pools is free. */
    lemma PoolFacts()
      requires Valid()
      ensures Bijective(State())
      ensures |orders.Held()| == |index| && |nodes.Held()| == |index|
      ensures orders.freeCount == orders.slots.Length - |index| && nodes.freeCount == nodes.slots.Length - |index|
    {
      hide RepOk, Settled, Pool.Valid;
      SettledParts(State(), Ch());
      SlotsInStep(State());
      orders.Counts();
      nodes.Counts();
    }

    ghost function Mode(): Storage {
      Intrusive(orders.slots.Length)
    }

    constructor (capacity: nat)
      ensures Valid() && Book() == EMPTY_BOOK && Mode() == Intrusive(capacity) && fresh(Repr())
    {
      orders := new Pool(capacity, NO_ORDER);
      nodes := new Pool(capacity, Node(0, None, None));
      bids, asks, index := [], [], map[];
      bidChains, askChains := [], [];
      new;
      EmptySettled(State(), Ch());
      SettledParts(State(), Ch());
    }

    method WriteNode(n: nat, x: Node)
      requires PoolsOk() && n in nodes.Held()
      modifies nodes.slots
      ensures PoolsOk() && State() == old(State()).(nodes := old(nodes.Held())[n := x])
    {
      hide FreeListOk;
      nodes.Write(n, x);
    }

    method WriteQuantity(o: nat, quantity: Quantity)
      requires PoolsOk() && o in orders.Held()
      modifies orders.slots
      ensures PoolsOk() && State() == Written(old(State()), o, quantity)
    {
      hide FreeListOk;
      orders.Write(o, orders.Get(o).(quantity := quantity));
    }

    /** `destroy_node`: both slots go back to their free lists. */
    method Destroy(n: nat)
      requires PoolsOk() && n in nodes.Held() && nodes.Held()[n].order in orders.Held()
      modifies orders, orders.live, orders.free, nodes, nodes.live, nodes.free
      ensures PoolsOk()
      ensures State() == old(State()).(nodes := old(nodes.Held()) - {n},
                                       orders := old(orders.Held()) - {old(nodes.Held())[n].order})
      ensures orders.freeCount == old(orders.freeCount) + 1 && nodes.freeCount == old(nodes.freeCount) + 1
    {
      hide FreeListOk;
      var released := orders.Release(nodes.Get(n).order);
      released := nodes.Release(n);
    }

    function Levels(side: Side): seq<NodeLevel>
      reads this
    {
      if side.Buy? then bids else asks
    }

    method SetLevel(side: Side, i: nat, l: NodeLevel)
      requires i < |Levels(side)|
      modifies this`bids, this`asks
      ensures Levels(side) == old(Levels(side))[i := l] && Levels(Opposite(side)) == old(Levels(Opposite(side)))
    {
      if side.Buy? { bids := bids[i := l]; } else { asks := asks[i := l]; }
    }

    ghost method SetChains(ch: Chains)
      modifies this`bidChains, this`askChains
      ensures Ch() == ch
    {
      bidChains, askChains := ch.bids, ch.asks;
    }

    // ---- Links -------------------------------------------------------------------------------

    /** `unlink_node`. */
    method Unlink(side: Side, i: nat, n: nat)
      requires PoolsOk() && CanDrop(State(), side, i, n)
      modifies this`bids, this`asks, nodes.slots
      ensures PoolsOk()
      ensures State() == WithLevels(old(State()), side,
                                    old(Levels(side))[i := UnlinkLevel(old(Levels(side)[i]), old(nodes.Held())[n])])
                         .(nodes := UnlinkNode(old(nodes.Held()), n))
    {
      hide Pool.Valid;
      var node := nodes.Get(n);
      var l := Levels(side)[i];
      if node.prev.Some? {
        var p := node.prev.value;
        WriteNode(p, nodes.Get(p).(next := node.next));
      } else {
        l := l.(head := node.next);
      }
      if node.next.Some? {
        var q := node.next.value;
        WriteNode(q, nodes.Get(q).(prev := node.prev));
      } else {
        l := l.(tail := node.prev);
      }
      l := l.(size := l.size - 1);
      SetLevel(side, i, l);
    }

    /** Erase the index entry, unlink the node and give both its slots back. */
    method TakeOut(side: Side, i: nat, n: nat, ghost k: nat)
      requires Linkage() && i < |ChainsOf(Ch(), side)| && k < |ChainsOf(Ch(), side)[i]|
      requires n == ChainsOf(Ch(), side)[i][k]
      modifies Repr()
      ensures PoolsOk() && old(CanDrop(State(), side, i, n)) && State() == Dropped(old(State()), side, i, n)
      ensures Ch() == DropFrom(old(Ch()), side, i, k) && RepOk(State(), Ch())
      ensures orders.freeCount == old(orders.freeCount) + 1 && nodes.freeCount == old(nodes.freeCount) + 1
    {
      hide RepOk, Pool.Valid, UnlinkNode, UnlinkLevel;
      ghost var r := State();
      DroppedOk(r, Ch(), side, i, k);
      var o := nodes.Get(n).order;
      index := index - {orders.Get(o).id};
      Unlink(side, i, n);
      UnlinkTouches(r.nodes, n, n);
      Destroy(n);
      SetChains(DropFrom(Ch(), side, i, k));
    }

    method EraseIfEmpty(side: Side, i: nat)
      requires Linkage() && i < |Levels(side)|
      modifies this`bids, this`asks, this`bidChains, this`askChains
      ensures Linkage()
      ensures |old(ChainsOf(Ch(), side))| == |old(Levels(side))|
      ensures if old(ChainsOf(Ch(), side))[i] == [] then
                && State() == Erased(old(State()), side, i)
                && Ch() == WithChains(old(Ch()), side, CutLevel(ChainsOf(old(Ch()), side), i))
              else
                State() == old(State()) && Ch() == old(Ch())
    {
      hide RepOk, FreeListOk, ChainOk, Linked, NoRepeat;
      ChainsMatch(State(), Ch(), side);
      ChainAt(State(), Ch(), side, i);
      SizeIsLength(nodes.Held(), Levels(side)[i], ChainsOf(Ch(), side)[i]);
      if Levels(side)[i].size == 0 {
        ErasedOk(State(), Ch(), side, i);
        if side.Buy? {
          bids := CutLevel(bids, i);
          bidChains := CutLevel(bidChains, i);
        } else {
          asks := CutLevel(asks, i);
          askChains := CutLevel(askChains, i);
        }
      }
    }

    // ---- Matching ----------------------------------------------------------------------------

    /** Hit the maker at the head of the best level. */
    method FillFrontOrder(side: Side, takerId: OrderId, quantity: Quantity) returns (trade: Trade, left: Quantity)
      requires Linkage() && Levels(side) != [] && HasFront(Ch(), side) && quantity > 0
      requires FrontOrder(State(), Ch(), side).quantity > 0
      modifies Repr()
      ensures PoolsOk()
      ensures var maker := old(FrontOrder(State(), Ch(), side));
              var traded := Min(quantity, maker.quantity);
              && trade == Trade(takerId, maker.id, maker.price, traded) && left == quantity - traded
              && HitState(old(State()), old(Ch()), side, traded, State(), Ch())
    {
      hide RepOk, Pool.Valid, Linked, NoRepeat, Homed, Dropped;
      ghost var n0 := ChainsOf(Ch(), side)[0][0];
      ChainAt(State(), Ch(), side, 0);
      HomedAt(State(), ChainsOf(Ch(), side)[0], side, Levels(side)[0].price, 0);
      var n := Levels(side)[0].head.value;
      var o := nodes.Get(n).order;
      var maker := orders.Get(o);
      var traded := Min(quantity, maker.quantity);
      trade := Trade(takerId, maker.id, maker.price, traded);
      left := quantity - traded;
      if traded == maker.quantity {
        TakeOut(side, 0, n, 0);
      } else {
        WriteQuantity(o, maker.quantity - traded);
      }
    }

    /** Hit makers at the head of the best level until the taker or the level is used up. */
    method FillLevel(side: Side, t: Taker, quantity: Quantity) returns (trades: seq<Trade>, left: Quantity)
      requires Linkage() && Levels(side) != [] && BookOk(Book()) && Crosses(t, Levels(side)[0].price)
      modifies Repr()
      ensures Linkage() && BookOk(Book()) && Levels(side) != []
      ensures OnlyFront(old(State()), old(Ch()), State(), Ch(), side)
      ensures left == 0 || !HasFront(Ch(), side)
      ensures left <= quantity && (quantity > 0 && old(HasFront(Ch(), side)) ==> left < quantity)
      ensures Match(t, old(SideOf(Book(), side)), quantity) == After(trades, Match(t, SideOf(Book(), side), left))
    {
      hide RepOk, Pool.Valid, BookOk, Match, After, FrontHit, OnlyFront, BookOf, HitState, HasFront, FrontOrder;
      trades, left := [], quantity;
      OnlyFrontSame(State(), Ch(), side);
      AfterTwice([], [], Match(t, SideOf(Book(), side), quantity));
      ChainsMatch(State(), Ch(), side);
      HeadIsFront(State(), Ch(), side);
      while left > 0 && Levels(side)[0].head.Some?
        invariant Linkage() && BookOk(Book()) && Levels(side) != []
        invariant OnlyFront(old(State()), old(Ch()), State(), Ch(), side) && Crosses(t, Levels(side)[0].price)
        invariant Levels(side)[0].head.Some? <==> HasFront(Ch(), side)
        invariant left <= quantity
                  && (quantity > 0 && old(HasFront(Ch(), side)) ==> left < quantity || HasFront(Ch(), side))
        invariant Match(t, old(SideOf(Book(), side)), quantity) == After(trades, Match(t, SideOf(Book(), side), left))
        decreases left
      {
        ghost var r, ch := State(), Ch();
        SidesMatch(r, ch);
        FrontIsFirst(r, ch, side);
        var trade, less := FillFrontOrder(side, t.id, left);
        HitIsFrontHit(r, ch, side, left - less, State(), Ch());
        HitOnlyFront(old(State()), old(Ch()), r, ch, side, left - less, State(), Ch());
        FrontHitMatches(t, SideOf(BookOf(r, ch), side), left);
        FrontHitKeepsBook(BookOf(r, ch), side, left - less);
        HeadIsFront(State(), Ch(), side);
        AfterTwice(trades, [trade], Match(t, SideOf(Book(), side), less));
        trades, left := trades + [trade], less;
      }
    }

    method MatchAgainst(side: Side, t: Taker, quantity: Quantity) returns (trades: seq<Trade>, left: Quantity)
      requires Valid()
      modifies Repr()
      ensures Valid()
      ensures MatchOutcome(trades, SideOf(Book(), side), left) == Match(t, old(SideOf(Book(), side)), quantity)
      ensures SideOf(Book(), Opposite(side)) == old(SideOf(Book(), Opposite(side)))
    {
      hide RepOk, Pool.Valid, BookOk, Match, OnlyFront, BookOf, Settled;
      trades, left := [], quantity;
      SettledParts(State(), Ch());
      AfterTwice([], [], Match(t, SideOf(Book(), side), quantity));
      while left > 0 && Levels(side) != []
        invariant Valid() && RepOk(State(), Ch())
        invariant Match(t, old(SideOf(Book(), side)), quantity) == After(trades, Match(t, SideOf(Book(), side), left))
        invariant SideOf(Book(), Opposite(side)) == old(SideOf(Book(), Opposite(side)))
        decreases left
      {
        ghost var r, ch := State(), Ch();
        SettledParts(r, ch);
        SettledFront(r, ch, side);
        if !Crosses(t, Levels(side)[0].price) {
          break;
        }
        var more, less := FillLevel(side, t, left);
        ghost var u, uh := State(), Ch();
        HeadIsFront(u, uh, side);
        EraseIfEmpty(side, 0);
        SettleFront(r, ch, u, uh, side, State(), Ch());
        AfterTwice(trades, more, Match(t, SideOf(Book(), side), less));
        trades, left := trades + more, less;
      }
      SettledParts(State(), Ch());
      SettledFront(State(), Ch(), side);
      MatchStops(t, SideOf(Book(), side), left);
      AfterTwice(trades, [], MatchOutcome([], SideOf(Book(), side), left));
    }

    // ---- Resting -----------------------------------------------------------------------------

    method Acquire(o: Order) returns (node: Option<nat>, ghost slot: nat)
      requires PoolsOk()
      modifies orders, orders.slots, orders.live, orders.free, nodes, nodes.slots, nodes.live, nodes.free
      ensures PoolsOk()
      ensures node.Some? <==> old(orders.freeCount) > 0 && old(nodes.freeCount) > 0
      ensures node.None? ==> State() == old(State())
      ensures node.Some? ==>
                && node.value !in old(nodes.Held()) && slot !in old(orders.Held())
                && State() == old(State()).(nodes := old(nodes.Held())[node.value := Node(slot, None, None)],
                                            orders := old(orders.Held())[slot := o])
    {
      hide FreeListOk;
      slot := 0;
      var order := orders.TryAcquire(o);
      if order.None? {
        return None, slot;
      }
      slot := order.value;
      node := nodes.TryAcquire(Node(order.value, None, None));
      if node.None? {
        var released := orders.Release(order.value);
        assert orders.Held() == old(orders.Held());
      }
    }

    /** `append_node` on level `i`. */
    method Append(side: Side, i: nat, n: nat)
      requires PoolsOk() && i < |Levels(side)| && n in nodes.Held()
      requires Levels(side)[i].tail.Some? ==> Levels(side)[i].tail.value in nodes.Held()
      modifies this`bids, this`asks, nodes.slots
      ensures PoolsOk()
      ensures State() == WithLevels(old(State()), side, old(Levels(side))[i := AppendLevel(old(Levels(side)[i]), n)])
                         .(nodes := AppendNode(old(nodes.Held()), old(Levels(side)[i]), n))
    {
      hide Pool.Valid;
      var l := Levels(side)[i];
      WriteNode(n, nodes.Get(n).(prev := l.tail, next := None));
      if l.tail.Some? {
        WriteNode(l.tail.value, nodes.Get(l.tail.value).(next := Some(n)));
      } else {
        l := l.(head := Some(n));
      }
      SetLevel(side, i, l.(tail := Some(n), size := l.size + 1));
    }

    /** `try_emplace` of a price level. */
    method LevelFor(side: Side, price: Price) returns (i: nat)
      modifies this`bids, this`asks
      ensures i == LevelSlot(old(Levels(side)), side, price)
      ensures Levels(Opposite(side)) == old(Levels(Opposite(side)))
      ensures Levels(side) == if i < |old(Levels(side))| && old(Levels(side))[i].price == price then old(Levels(side))
                              else PutLevel(old(Levels(side)), i, NodeLevel(price, None, None, 0))
    {
      i := LevelSlot(Levels(side), side, price);
      if !(i < |Levels(side)| && Levels(side)[i].price == price) {
        if side.Buy? {
          bids := PutLevel(bids, i, NodeLevel(price, None, None, 0));
        } else {
          asks := PutLevel(asks, i, NodeLevel(price, None, None, 0));
        }
      }
    }

    /** Rest a remainder; refused only when a pool is exhausted. The index never already holds the id. */
    method Rest(id: OrderId, side: Side, price: Price, quantity: Quantity) returns (ok: bool)
      requires Valid() && quantity > 0 && !Contains(Book(), id)
      requires SideOf(Book(), Opposite(side)) != [] ==>
                 !Crosses(LimitTaker(id, side, price), SideOf(Book(), Opposite(side))[0].price)
      modifies Repr()
      ensures Valid() && ok == (old(orders.freeCount) > 0 && old(nodes.freeCount) > 0)
      ensures !ok ==> Book() == old(Book())
      ensures ok ==> Book() == WithSide(old(Book()), side,
                                        Insert(SideOf(old(Book()), side), Order(id, side, price, quantity)))
    {
      hide Settled, RepOk, BookOk, Pool.Valid, BookOf, Contains, Insert, LevelSlot;
      var o := Order(id, side, price, quantity);
      ghost var r, ch := State(), Ch();
      SettledParts(r, ch);
      IndexIsTheBook(r, ch, id);
      var node, slot := Acquire(o);
      if node.None? {
        return false;
      }
      var i, e, eh := MakeLevel(o, node.value, slot, r);
      LinkIn(o, i, node.value, slot, e, eh);
      RestView(r, ch, e, eh, side, i, node.value, slot, o, State(), Ch());
      RestSettled(r, ch, State(), Ch(), side, o);
      return true;
    }

    /** The level of the order's price, made if it is missing. */
    method MakeLevel(o: Order, n: nat, ghost slot: nat, ghost r: Rep) returns (i: nat, ghost e: Rep, ghost eh: Chains)
      requires PoolsOk() && RepOk(r, Ch()) && |Ch().bids| == |r.bids| && |Ch().asks| == |r.asks|
      requires n !in r.nodes && slot !in r.orders && o.id !in r.index
      requires State() == Staged(r, n, slot, o)
      modifies this`bids, this`asks
      ensures PoolsOk() && RepOk(e, eh) && LevelReady(r, Ch(), e, eh, o.side, i, o.price)
      ensures CanAdd(e, o.side, i, n, slot, o) && State() == Staged(e, n, slot, o)
    {
      hide RepOk, Pool.Valid, LevelSlot, MapView, PutLevel;
      i := LevelFor(o.side, o.price);
      e, eh := RestLevel(r, Ch(), o.side, i, o.price);
      RestTail(e, eh, o.side, i);
    }

    /** Link an acquired node in at the tail of level `i` and index it. */
    method LinkIn(o: Order, i: nat, n: nat, ghost slot: nat, ghost e: Rep, ghost eh: Chains)
      requires PoolsOk() && CanAdd(e, o.side, i, n, slot, o) && State() == Staged(e, n, slot, o)
      requires i < |ChainsOf(eh, o.side)|
      modifies this, nodes.slots
      ensures PoolsOk() && State() == Added(e, o.side, i, n, slot, o) && Ch() == AddTo(eh, o.side, i, n)
    {
      hide Pool.Valid, AppendNode, AppendLevel;
      Append(o.side, i, n);
      if o.id in index {
        // The source unlinks and frees the node again here; no caller gets this far with a known id.
        assert false;
      }
      index := index[o.id := Locator(o.side, o.price, n)];
      SetChains(AddTo(eh, o.side, i, n));
    }

    // ---- Removing ----------------------------------------------------------------------------

    /** `cancel`: the locator leads to the node; its level goes when it was the last there. */
    method Cancel(id: OrderId) returns (ok: bool)
      requires Valid()
      modifies Repr()
      ensures Valid() && ok == Contains(old(Book()), id) && Book() == BookSpec.Cancel(old(Book()), id)
    {
      hide RepOk, Settled, Pool.Valid, BookOf, LevelSlot, Dropped;
      hide CanDrop, DropFrom, Contains, Find, BookSpec.Cancel, At;
      ghost var r, ch := State(), Ch();
      SettledParts(r, ch);
      IndexIsTheBook(r, ch, id);
      if id !in index {
        CancelAbsent(Book(), id);
        return false;
      }
      var loc := index[id];
      ghost var i0, k := Placed(r, ch, id);
      var i := LevelSlot(Levels(loc.side), loc.side, loc.price);
      TakeOut(loc.side, i, loc.node, k);
      ghost var u, uh := State(), Ch();
      DroppedCounts(r, ch, loc.side, i, k, u, uh);
      EraseIfEmpty(loc.side, i);
      CancelSettles(r, ch, id, i, k, u, uh, State(), Ch());
      return true;
    }

    // ---- Dry runs ----------------------------------------------------------------------------

    method SimulateLevel(side: Side, i: nat, t: Taker, quantity: Quantity, ghost rest: seq<Order>)
      returns (left: Quantity, freed: nat, ghost count: nat)
      requires Valid() && |ChainsOf(Ch(), side)| == |Levels(side)| && i < |Levels(side)|
               && Crosses(t, Levels(side)[i].price)
      ensures Scanned(t, LevelOrders(State(), Ch(), side, i) + rest, quantity, rest, left, freed, count)
    {
      hide Settled, Pool.Valid, RepOk, Scanned, LevelOrders, At;
      ghost var c, v, k := ChainsOf(Ch(), side)[i], LevelOrders(State(), Ch(), side, i), 0;
      var node := Levels(side)[i].head;
      left, freed, count := quantity, 0, 0;
      WalkStart(State(), Ch(), side, i);
      ScannedNone(t, v + rest, quantity);
      assert v[0..] == v;
      while left > 0 && node.Some?
        invariant k <= |c| && node == Cursor(c, k)
        invariant Scanned(t, v + rest, quantity, v[k..] + rest, left, freed, count)
        decreases |c| - k
      {
        WalkStep(State(), Ch(), side, i, k, c, v);
        var maker := orders.Get(nodes.Get(node.value).order);
        assert maker == v[k] by { AtIs(State(), c[k]); }
        ScannedStep(t, v + rest, quantity, v, k, rest, left, freed, count);
        var traded := Min(left, maker.quantity);
        left := left - traded;
        if traded == maker.quantity {
          freed := freed + 1;
        }
        node, k, count := nodes.Get(node.value).next, k + 1, count + 1;
      }
      ScannedEnd(t, v + rest, quantity, v, k, rest, left, freed, count);
    }

    /** `simulate_match`: what a taker would leave, and how many makers it would use up. */
    method SimulateMatch(t: Taker, quantity: Quantity) returns (left: Quantity, freed: nat)
      requires Valid()
      ensures left == MatchIn(Book(), t, quantity).remainder
      ensures freed == |SideOf(Book(), Opposite(t.side))| - |MatchIn(Book(), t, quantity).makers|
    {
      hide Settled, Pool.Valid, RepOk, Scanned, LevelOrders, Match, Ahead, BookOf;
      var side := Opposite(t.side);
      left, freed := quantity, 0;
      var i := 0;
      ghost var count := 0;
      SettledParts(State(), Ch());
      AheadIs(State(), Ch(), side, 0);
      ghost var q := SideOf(Book(), side);
      ScannedNone(t, q, quantity);
      while left > 0 && i < |Levels(side)| && Crosses(t, Levels(side)[i].price)
        invariant 0 <= i <= |Levels(side)|
        invariant Scanned(t, q, quantity, Ahead(State(), Ch(), side, i), left, freed, count)
        decreases |Levels(side)| - i
      {
        AheadIs(State(), Ch(), side, i);
        ghost var v, rest := LevelOrders(State(), Ch(), side, i), Ahead(State(), Ch(), side, i + 1);
        var less, gone, seen := SimulateLevel(side, i, t, left, rest);
        ScannedJoin(t, q, quantity, v + rest, left, freed, count, rest, less, gone, seen);
        left, freed, count := less, freed + gone, count + seen;
        i := i + 1;
      }
      AheadIs(State(), Ch(), side, i);
      ScannedStops(t, q, quantity, Ahead(State(), Ch(), side, i), left, freed, count);
    }

    method CountLevel(side: Side, i: nat, t: Taker, quantity: Quantity, ghost rest: seq<Order>)
      returns (left: Quantity, count: nat, ghost freed: nat)
      requires Valid() && |ChainsOf(Ch(), side)| == |Levels(side)| && i < |Levels(side)|
               && Crosses(t, Levels(side)[i].price)
      ensures Scanned(t, LevelOrders(State(), Ch(), side, i) + rest, quantity, rest, left, freed, count)
    {
      hide Settled, Pool.Valid, RepOk, Scanned, LevelOrders, At;
      ghost var c, v, k := ChainsOf(Ch(), side)[i], LevelOrders(State(), Ch(), side, i), 0;
      var node := Levels(side)[i].head;
      left, freed, count := quantity, 0, 0;
      WalkStart(State(), Ch(), side, i);
      ScannedNone(t, v + rest, quantity);
      assert v[0..] == v;
      while left > 0 && node.Some?
        invariant k <= |c| && node == Cursor(c, k)
        invariant Scanned(t, v + rest, quantity, v[k..] + rest, left, freed, count)
        decreases |c| - k
      {
        WalkStep(State(), Ch(), side, i, k, c, v);
        var maker := orders.Get(nodes.Get(node.value).order);
        assert maker == v[k] by { AtIs(State(), c[k]); }
        ScannedStep(t, v + rest, quantity, v, k, rest, left, freed, count);
        freed := freed + if maker.quantity <= left then 1 else 0;
        left := left - Min(left, maker.quantity);
        node, k, count := nodes.Get(node.value).next, k + 1, count + 1;
      }
      ScannedEnd(t, v + rest, quantity, v, k, rest, left, freed, count);
    }

    /** `fill_count`: how many trades a taker would make. */
    method FillCount(t: Taker, quantity: Quantity) returns (count: nat)
      requires Valid()
      ensures count == BookSpec.FillCount(Book(), t, quantity)
    {
      hide Settled, Pool.Valid, RepOk, Scanned, LevelOrders, Match, Ahead, BookOf;
      var side := Opposite(t.side);
      count := 0;
      var left, i := quantity, 0;
      ghost var freed := 0;
      SettledParts(State(), Ch());
      AheadIs(State(), Ch(), side, 0);
      ghost var q := SideOf(Book(), side);
      ScannedNone(t, q, quantity);
      while left > 0 && i < |Levels(side)| && Crosses(t, Levels(side)[i].price)
        invariant 0 <= i <= |Levels(side)|
        invariant Scanned(t, q, quantity, Ahead(State(), Ch(), side, i), left, freed, count)
        decreases |Levels(side)| - i
      {
        AheadIs(State(), Ch(), side, i);
        ghost var v, rest := LevelOrders(State(), Ch(), side, i), Ahead(State(), Ch(), side, i + 1);
        var less, seen, gone := CountLevel(side, i, t, left, rest);
        ScannedJoin(t, q, quantity, v + rest, left, freed, count, rest, less, gone, seen);
        left, freed, count := less, freed + gone, count + seen;
        i := i + 1;
      }
      AheadIs(State(), Ch(), side, i);
      ScannedStops(t, q, quantity, Ahead(State(), Ch(), side, i), left, freed, count);
    }

    // ---- Queries -----------------------------------------------------------------------------

    method ContainsOrder(id: OrderId) returns (found: bool)
      requires Valid()
      ensures found == Contains(Book(), id)
    {
      hide Settled, RepOk, Pool.Valid, BookOf, Contains, At;
      IndexIsTheBook(State(), Ch(), id);
      found := id in index;
    }

    method BestPriceOf(side: Side) returns (p: Option<Price>)
      requires Valid()
      ensures p == BestPrice(SideOf(Book(), side))
    {
      hide Settled, RepOk, Pool.Valid, BookOf;
      SettledParts(State(), Ch());
      SettledFront(State(), Ch(), side);
      p := if Levels(side) == [] then None else Some(Levels(side)[0].price);
    }

    /** Add up one level along its `next` pointers. */
    method LevelTotal(side: Side, i: nat) returns (total: nat)
      requires Valid() && |ChainsOf(Ch(), side)| == |Levels(side)| && i < |Levels(side)|
      ensures total == TotalQuantity(LevelOrders(State(), Ch(), side, i))
    {
      hide Settled, Pool.Valid, RepOk, LevelOrders, At, TotalQuantity;
      ghost var c, v, k := ChainsOf(Ch(), side)[i], LevelOrders(State(), Ch(), side, i), 0;
      var node := Levels(side)[i].head;
      total := 0;
      WalkStart(State(), Ch(), side, i);
      assert v[0..] == v;
      while node.Some?
        invariant k <= |c| && node == Cursor(c, k) && TotalQuantity(v) == total + TotalQuantity(v[k..])
        decreases |c| - k
      {
        WalkStep(State(), Ch(), side, i, k, c, v);
        TotalFrom(v, k);
        var order := orders.Get(nodes.Get(node.value).order);
        assert order == v[k] by { AtIs(State(), c[k]); }
        total := total + order.quantity;
        node, k := nodes.Get(node.value).next, k + 1;
      }
      TotalFrom(v, k);
    }

    method QuantityAtPrice(side: Side, price: Price) returns (total: nat)
      requires Valid()
      ensures total == QuantityAt(SideOf(Book(), side), price)
    {
      hide Settled, Pool.Valid, RepOk, MapView, LevelSlot, Slot, Flatten, QuantityAt, TotalQuantity, Grouped, SortedMap;
      ghost var r, ch := State(), Ch();
      SettledParts(r, ch);
      RepSorted(r, ch, side);
      SlotsAgree(r, ch, side, price);
      QuantityAtMap(side, MapView(r, ch, side), price);
      var k := LevelSlot(Levels(side), side, price);
      if k < |Levels(side)| {
        ViewPrice(r, ch, side, k);
      }
      if k < |Levels(side)| && Levels(side)[k].price == price {
        total := LevelTotal(side, k);
      } else {
        total := 0;
      }
    }

    method LevelViews(side: Side) returns (views: seq<LevelView>)
      requires Valid()
      ensures views == BookSpec.Levels(SideOf(Book(), side))
    {
      hide Settled, Pool.Valid, RepOk, MapView, LevelOrders, PoolsOk;
      hide Flatten, BookSpec.Levels, TotalQuantity, Grouped, SortedMap;
      ghost var r, ch := State(), Ch();
      SettledParts(r, ch);
      RepSorted(r, ch, side);
      ViewCount(r, ch, side);
      ghost var m := MapView(r, ch, side);
      views := [];
      var i := 0;
      assert m[0..] == m;
      Reassociate(BookSpec.Levels(Flatten(m)), [], []);
      while i < |Levels(side)|
        invariant 0 <= i <= |Levels(side)|
        invariant BookSpec.Levels(Flatten(m)) == views + BookSpec.Levels(Flatten(m[i..]))
      {
        LevelsFrom(side, m, i);
        ViewPrice(r, ch, side, i);
        var total := LevelTotal(side, i);
        var price := Levels(side)[i].price;
        Reassociate(views, [LevelView(price, total)], BookSpec.Levels(Flatten(m[i + 1..])));
        views := views + [LevelView(price, total)];
        i := i + 1;
      }
      LevelsFrom(side, m, i);
      Reassociate(views, [], []);
    }

    /** Copy out one level along its `next` pointers. */
    method CopyLevel(side: Side, i: nat, out: seq<Order>) returns (longer: seq<Order>)
      requires Valid() && |ChainsOf(Ch(), side)| == |Levels(side)| && i < |Levels(side)|
      ensures longer == out + LevelOrders(State(), Ch(), side, i)
    {
      hide Settled, Pool.Valid, RepOk, LevelOrders, At;
      ghost var c, v, k := ChainsOf(Ch(), side)[i], LevelOrders(State(), Ch(), side, i), 0;
      var node := Levels(side)[i].head;
      longer := out;
      WalkStart(State(), Ch(), side, i);
      while node.Some?
        invariant k <= |c| && node == Cursor(c, k) && longer == out + v[..k]
        decreases |c| - k
      {
        WalkStep(State(), Ch(), side, i, k, c, v);
        var order := orders.Get(nodes.Get(node.value).order);
        assert order == v[k] by { AtIs(State(), c[k]); }
        assert v[..k + 1] == v[..k] + [v[k]];
        longer := longer + [order];
        node, k := nodes.Get(node.value).next, k + 1;
      }
      assert v[..k] == v;
    }

    method AppendOrders(side: Side) returns (out: seq<Order>)
      requires Valid()
      ensures out == SideOf(Book(), side)
    {
      hide Settled, Pool.Valid, RepOk, MapView, Flatten, BookSpec.Levels, TotalQuantity, Grouped, SortedMap;
      ghost var r, ch := State(), Ch();
      SettledParts(r, ch);
      ViewCount(r, ch, side);
      ghost var m := MapView(r, ch, side);
      out := [];
      var i := 0;
      assert m[0..] == m;
      Reassociate(Flatten(m), [], []);
      while i < |Levels(side)|
        invariant 0 <= i <= |Levels(side)| && Flatten(m) == out + Flatten(m[i..])
      {
        FlattenStep(m, i);
        Reassociate(out, m[i].orders, Flatten(m[i + 1..]));
        out := CopyLevel(side, i, out);
        i := i + 1;
      }
      FlattenStep(m, i);
      Reassociate(out, [], []);
    }

    method RestingOrders() returns (out: seq<Order>)
      requires Valid()
      ensures out == BookSpec.RestingOrders(Book())
    {
      hide Settled, Pool.Valid, RepOk, BookOf;
      var bidOrders := AppendOrders(Buy);
      var askOrders := AppendOrders(Sell);
      out := bidOrders + askOrders;
    }

    method Count() returns (n: nat)
      requires Valid()
      ensures n == OrderCount(Book())
    {
      hide Settled, Pool.Valid, RepOk, BookOf;
      PoolFacts();
      CountIsTheBook(State(), Ch());
      n := |index|;
    }

    // ---- Admission ---------------------------------------------------------------------------

    /** Both pools have a free slot. */
    predicate HasCapacity()
      reads orders, nodes
    {
      orders.freeCount > 0 && nodes.freeCount > 0
    }

    /** The free lists know how many orders rest. */
    lemma CapacityIsCount()
      requires Valid()
      ensures OrderCount(Book()) <= orders.slots.Length
      ensures HasCapacity() <==> OrderCount(Book()) < orders.slots.Length
    {
      hide Settled, RepOk, Pool.Valid, BookOf;
      SettledParts(State(), Ch());
      CountIsTheBook(State(), Ch());
      orders.Counts();
      nodes.Counts();
    }

    method CanStoreLimit(side: Side, price: Price, quantity: Quantity, tif: TimeInForce, ghost id: OrderId)
      returns (ok: bool)
      requires Valid()
      ensures ok == BookSpec.CanStoreLimit(Mode(), Book(), id, side, price, quantity, tif)
    {
      hide Match, BookOf, Settled, RepOk, Pool.Valid;
      CapacityIsCount();
      if tif.IOC? || HasCapacity() {
        return true;
      }
      SimulationIgnoresId(SideOf(Book(), Opposite(side)), LimitTaker(0, side, price), LimitTaker(id, side, price),
                          quantity);
      var left, freed := SimulateMatch(LimitTaker(0, side, price), quantity);
      return left == 0 || freed > 0;
    }

    // ---- Operations --------------------------------------------------------------------------

    method AddLimit(id: OrderId, side: Side, price: Price, quantity: Quantity, tif: TimeInForce)
      returns (trades: seq<Trade>)
      requires Valid()
      modifies Repr()
      ensures Valid()
      ensures Applied(Book(), trades) == BookSpec.AddLimit(Mode(), old(Book()), id, side, price, quantity, tif)
    {
      hide Match, BookOf, Settled, RepOk, Pool.Valid, Contains, Insert, BookOk, BookSpec.CanStoreLimit;
      CapacityIsCount();
      IndexIsTheBook(State(), Ch(), id);
      var ok := CanStoreLimit(side, price, quantity, tif, id);
      if !ok || id in index {
        return [];
      }
      var made, left := Cross(id, side, price, quantity);
      trades := made;
      if left > 0 && tif.GTC? {
        CapacityIsCount();
        RoomAfterCross(Mode().capacity, old(Book()), LimitTaker(id, side, price), quantity, tif);
        var rested := Rest(id, side, price, left);
      }
    }

    /** The matching half of a limit order; its id is not resting before or after. */
    method Cross(id: OrderId, side: Side, price: Price, quantity: Quantity) returns (trades: seq<Trade>, left: Quantity)
      requires Valid() && !Contains(Book(), id)
      modifies Repr()
      ensures Valid() && !Contains(Book(), id)
      ensures var m := MatchIn(old(Book()), LimitTaker(id, side, price), quantity);
              trades == m.trades && left == m.remainder && Book() == WithSide(old(Book()), Opposite(side), m.makers)
      ensures left > 0 && SideOf(Book(), Opposite(side)) != [] ==>
                !Crosses(LimitTaker(id, side, price), SideOf(Book(), Opposite(side))[0].price)
    {
      hide Match, BookOf, Settled, RepOk, Pool.Valid, Contains, BookOk;
      ghost var b := Book();
      ghost var t := LimitTaker(id, side, price);
      SettledParts(State(), Ch());
      BookSides(b, Opposite(side));
      MatchLeavesNoCross(t, SideOf(b, Opposite(side)), quantity);
      trades, left := MatchAgainst(Opposite(side), LimitTaker(id, side, price), quantity);
      SettledParts(State(), Ch());
      if Contains(Book(), id) { CrossAddsNoId(b, t, quantity, id); }
    }

    method AddMarket(id: OrderId, side: Side, quantity: Quantity) returns (trades: seq<Trade>)
      requires Valid()
      modifies Repr()
      ensures Valid()
      ensures Applied(Book(), trades) == BookSpec.AddMarket(old(Book()), id, side, quantity)
    {
      hide Match, BookOf, Settled, RepOk, Pool.Valid, Contains;
      SettledParts(State(), Ch());
      IndexIsTheBook(State(), Ch(), id);
      if id in index {
        return [];
      }
      var made, left := MatchAgainst(Opposite(side), Taker(id, side, true, 0), quantity);
      trades := made;
    }

    /** A same-price reduction writes the quantity and keeps time priority. */
    method ReduceInPlace(id: OrderId, quantity: Quantity)
      requires Valid() && id in index && quantity > 0
      modifies orders.slots
      ensures Valid()
      ensures Book() == WithSide(old(Book()), index[id].side, Resize(SideOf(old(Book()), index[id].side), id, quantity))
    {
      hide Match, BookOf, Settled, RepOk, Pool.Valid, Resize, LevelSlot, Find, Contains, At;
      ghost var r, ch := State(), Ch();
      SettledParts(r, ch);
      var loc := index[id];
      ghost var i, k := Placed(r, ch, id);
      WriteQuantity(nodes.Get(loc.node).order, quantity);
      ReduceSettles(r, ch, id, i, k, quantity, State());
      SettledParts(State(), Ch());
    }

    method Modify(id: OrderId, price: Price, quantity: Quantity) returns (trades: seq<Trade>)
      requires Valid()
      modifies Repr()
      ensures Valid()
      ensures Applied(Book(), trades) == BookSpec.Modify(Mode(), old(Book()), id, price, quantity)
    {
      hide Match, BookOf, Settled, RepOk, Pool.Valid, Contains, Find, BookSpec.AddLimit, BookSpec.Cancel, At, LevelSlot;
      trades := [];
      ghost var r, ch := State(), Ch();
      SettledParts(r, ch);
      IndexIsTheBook(r, ch, id);
      if id !in index {
        return;
      }
      var loc := index[id];
      if quantity == 0 {
        var done := Cancel(id);
        return;
      }
      ghost var i, k := Placed(r, ch, id);
      AtIs(r, loc.node);
      if price == loc.price && quantity <= orders.Get(nodes.Get(loc.node).order).quantity {
        ReduceInPlace(id, quantity);
        return;
      }
      var done := Cancel(id);
      trades := AddLimit(id, loc.side, price, quantity, GTC);
    }

    method Apply(c: BookCommand) returns (trades: seq<Trade>)
      requires Valid()
      modifies Repr()
      ensures Valid()
      ensures Applied(Book(), trades) == BookSpec.Apply(Mode(), old(Book()), c)
    {
      hide Settled, RepOk, Pool.Valid, BookOf;
      hide BookSpec.AddLimit, BookSpec.AddMarket, BookSpec.Modify, BookSpec.Cancel;
      match c
      case LimitCmd(id, side, price, quantity, tif) => trades := AddLimit(id, side, price, quantity, tif);
      case MarketCmd(id, side, quantity) => trades := AddMarket(id, side, quantity);
      case CancelCmd(id) =>
        var ok := Cancel(id);
        trades := [];
      case ModifyCmd(id, price, quantity) => trades := Modify(id, price, quantity);
    }
  }
}
