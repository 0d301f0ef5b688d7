/**
 * The value layer of the contiguous storage: tombstoned FIFO levels in a price-indexed array, the
 * locator index, and the queue of live orders they stand for.
 */
module FlatLevels {
  import opened Types
  import opened BookSpec
  import opened BookQueries

  /** Quantity 0 marks a tombstone. */
  datatype FlatOrder = FlatOrder(id: OrderId, quantity: Quantity)

  datatype FlatLevel = FlatLevel(orders: seq<FlatOrder>, head: nat, alive: nat)

  datatype Locator = Locator(side: Side, price: Price, pos: nat)

  const EMPTY_LEVEL := FlatLevel([], 0, 0)

  /** The whole mutable state of a contiguous store apart from the occupancy bits. */
  datatype Rep = Rep(bids: seq<FlatLevel>, asks: seq<FlatLevel>, index: map<OrderId, Locator>)

  function LevelsOf(r: Rep, side: Side): seq<FlatLevel> {
    if side.Buy? then r.bids else r.asks
  }

  function WithLevel(r: Rep, side: Side, slot: nat, level: FlatLevel): Rep
    requires slot < |LevelsOf(r, side)|
  {
    if side.Buy? then r.(bids := r.bids[slot := level]) else r.(asks := r.asks[slot := level])
  }

  // ---- One level -----------------------------------------------------------------------------

  /** The live orders, oldest first. */
  function Live(orders: seq<FlatOrder>, side: Side, price: Price): seq<Order> {
    if orders == [] then []
    else (if orders[0].quantity > 0 then [Order(orders[0].id, side, price, orders[0].quantity)] else [])
         + Live(orders[1..], side, price)
  }

  /** The cursor and the live count are right, also between a fill and the level's clean-up. */
  ghost predicate Shaped(l: FlatLevel, side: Side, price: Price) {
    && l.head <= |l.orders|
    && (forall i :: 0 <= i < l.head ==> l.orders[i].quantity == 0)
    && l.alive == |Live(l.orders, side, price)|
    && (l.alive > 0 ==> l.head < |l.orders| && l.orders[l.head].quantity > 0)
  }

  /** Dead entries cannot pile up: at most as many as live ones, or too few to be worth compacting. */
  ghost predicate Tidy(l: FlatLevel, compactMin: nat) {
    && l.alive <= |l.orders|
    && (|l.orders| - l.alive <= l.alive || |l.orders| - l.alive + 2 <= compactMin)
    && (l.alive == 0 ==> l == EMPTY_LEVEL)
  }

  /** The first live position at or after `i`, or the end. */
  function NextLive(orders: seq<FlatOrder>, i: nat): (n: nat)
    requires i <= |orders|
    ensures i <= n <= |orders|
    ensures forall j :: i <= j < n ==> orders[j].quantity == 0
    ensures n < |orders| ==> orders[n].quantity > 0
    decreases |orders| - i
  {
    if i < |orders| && orders[i].quantity == 0 then NextLive(orders, i + 1) else i
  }

  lemma {:induction false} LiveConcat(a: seq<FlatOrder>, b: seq<FlatOrder>, side: Side, price: Price)
    ensures Live(a + b, side, price) == Live(a, side, price) + Live(b, side, price)
    decreases |a|
  {
    if a == [] {
      assert a + b == b;
    } else {
      assert (a + b)[0] == a[0] && (a + b)[1..] == a[1..] + b;
      LiveConcat(a[1..], b, side, price);
      var first := if a[0].quantity > 0 then [Order(a[0].id, side, price, a[0].quantity)] else [];
      Reassociate(first, Live(a[1..], side, price), Live(b, side, price));
    }
  }

  lemma {:induction false} LiveDead(a: seq<FlatOrder>, side: Side, price: Price)
    requires forall i :: 0 <= i < |a| ==> a[i].quantity == 0
    ensures Live(a, side, price) == []
    decreases |a|
  {
    if a != [] { LiveDead(a[1..], side, price); }
  }

  /** Skipping a dead prefix loses nothing. */
  lemma {:induction false} LiveFrom(orders: seq<FlatOrder>, head: nat, side: Side, price: Price)
    requires head <= |orders| && forall i :: 0 <= i < head ==> orders[i].quantity == 0
    ensures Live(orders, side, price) == Live(orders[head..], side, price)
  {
    assert orders == orders[..head] + orders[head..];
    LiveConcat(orders[..head], orders[head..], side, price);
    LiveDead(orders[..head], side, price);
  }

  lemma {:induction false} LiveAt(orders: seq<FlatOrder>, pos: nat, side: Side, price: Price)
    requires pos < |orders|
    ensures Live(orders, side, price)
            == Live(orders[..pos], side, price)
               + (if orders[pos].quantity > 0 then [Order(orders[pos].id, side, price, orders[pos].quantity)] else [])
               + Live(orders[pos + 1..], side, price)
  {
    assert orders == orders[..pos] + orders[pos..];
    LiveConcat(orders[..pos], orders[pos..], side, price);
    assert orders[pos..][1..] == orders[pos + 1..];
  }

  /** Changing the quantity at `pos` changes only that order of the live queue. */
  lemma {:induction false} LiveUpdate(orders: seq<FlatOrder>, pos: nat, n: Quantity, side: Side, price: Price)
    requires pos < |orders|
    ensures Live(orders[pos := orders[pos].(quantity := n)], side, price)
            == Live(orders[..pos], side, price)
               + (if n > 0 then [Order(orders[pos].id, side, price, n)] else [])
               + Live(orders[pos + 1..], side, price)
  {
    var u := orders[pos := orders[pos].(quantity := n)];
    LiveAt(u, pos, side, price);
    assert u[..pos] == orders[..pos] && u[pos + 1..] == orders[pos + 1..];
  }

  /** Every order in the live queue comes from some live entry. */
  lemma {:induction false} LiveComesFrom(orders: seq<FlatOrder>, side: Side, price: Price, i: nat) returns (pos: nat)
    requires i < |Live(orders, side, price)|
    ensures pos < |orders| && orders[pos].quantity > 0
    ensures Live(orders, side, price)[i] == Order(orders[pos].id, side, price, orders[pos].quantity)
    ensures i == |Live(orders[..pos], side, price)|
    decreases |orders|
  {
    var d := if orders[0].quantity > 0 then 1 else 0;
    if i < d {
      pos := 0;
    } else {
      var p := LiveComesFrom(orders[1..], side, price, i - d);
      pos := p + 1;
      assert orders[..pos][1..] == orders[1..][..p];
    }
  }

  lemma {:induction false} LiveIsNotLonger(orders: seq<FlatOrder>, side: Side, price: Price)
    ensures |Live(orders, side, price)| <= |orders|
    ensures (forall i :: 0 <= i < |orders| ==> orders[i].quantity > 0) ==> |Live(orders, side, price)| == |orders|
    decreases |orders|
  {
    if orders != [] { LiveIsNotLonger(orders[1..], side, price); }
  }

  // ---- One side ------------------------------------------------------------------------------

  /** Slots best-first: descending for bids, ascending for asks. */
  function SlotAt(side: Side, width: nat, rank: int): int {
    if side.Buy? then width - 1 - rank else rank
  }

  function LevelQueue(levels: seq<FlatLevel>, side: Side, lo: Price, slot: int): seq<Order>
    requires 0 <= slot < |levels|
  {
    Live(levels[slot].orders, side, lo + slot)
  }

  /** The live orders of ranks `[i, j)`, best first. */
  function Between(levels: seq<FlatLevel>, side: Side, lo: Price, i: nat, j: nat): seq<Order>
    requires i <= j <= |levels|
    decreases j - i
  {
    if i == j then []
    else LevelQueue(levels, side, lo, SlotAt(side, |levels|, i)) + Between(levels, side, lo, i + 1, j)
  }

  function Queue(levels: seq<FlatLevel>, side: Side, lo: Price): seq<Order> {
    Between(levels, side, lo, 0, |levels|)
  }

  function BookOf(r: Rep, lo: Price): Book {
    Book(Queue(r.bids, Buy, lo), Queue(r.asks, Sell, lo))
  }

  lemma {:induction false} BetweenSplits(levels: seq<FlatLevel>, side: Side, lo: Price, i: nat, j: nat, k: nat)
    requires i <= j <= k <= |levels|
    ensures Between(levels, side, lo, i, k)
            == Between(levels, side, lo, i, j) + Between(levels, side, lo, j, k)
    decreases j - i
  {
    hide LevelQueue;
    if i < j {
      BetweenSplits(levels, side, lo, i + 1, j, k);
      Reassociate(LevelQueue(levels, side, lo, SlotAt(side, |levels|, i)),
                  Between(levels, side, lo, i + 1, j), Between(levels, side, lo, j, k));
    }
  }

  lemma {:induction false} BetweenFrame(ls: seq<FlatLevel>, ms: seq<FlatLevel>, side: Side, lo: Price, i: nat, j: nat)
    requires i <= j <= |ls| == |ms|
    requires forall k :: i <= k < j ==> ls[SlotAt(side, |ls|, k)] == ms[SlotAt(side, |ms|, k)]
    ensures Between(ls, side, lo, i, j) == Between(ms, side, lo, i, j)
    decreases j - i
  {
    if i < j {
      assert ls[SlotAt(side, |ls|, i)] == ms[SlotAt(side, |ms|, i)];
      BetweenFrame(ls, ms, side, lo, i + 1, j);
    }
  }

  lemma {:induction false} BetweenEmpty(levels: seq<FlatLevel>, side: Side, lo: Price, i: nat, j: nat)
    requires i <= j <= |levels|
    requires forall k :: i <= k < j ==> LevelQueue(levels, side, lo, SlotAt(side, |levels|, k)) == []
    ensures Between(levels, side, lo, i, j) == []
    decreases j - i
  {
    if i < j {
      assert LevelQueue(levels, side, lo, SlotAt(side, |levels|, i)) == [];
      BetweenEmpty(levels, side, lo, i + 1, j);
    }
  }

  /** The queue around one rank. */
  lemma {:induction false} QueueAround(levels: seq<FlatLevel>, side: Side, lo: Price, rank: nat)
    requires rank < |levels|
    ensures Queue(levels, side, lo)
            == Between(levels, side, lo, 0, rank)
               + LevelQueue(levels, side, lo, SlotAt(side, |levels|, rank))
               + Between(levels, side, lo, rank + 1, |levels|)
  {
    BetweenSplits(levels, side, lo, 0, rank, |levels|);
  }

  /** Replacing one level replaces its stretch of the queue. */
  lemma {:induction false} QueueUpdate(levels: seq<FlatLevel>, side: Side, lo: Price, rank: nat, level: FlatLevel)
    requires rank < |levels|
    ensures var slot := SlotAt(side, |levels|, rank);
            Queue(levels[slot := level], side, lo)
            == Between(levels, side, lo, 0, rank)
               + Live(level.orders, side, lo + slot)
               + Between(levels, side, lo, rank + 1, |levels|)
  {
    var slot := SlotAt(side, |levels|, rank);
    var ms := levels[slot := level];
    QueueAround(ms, side, lo, rank);
    BetweenFrame(levels, ms, side, lo, 0, rank);
    BetweenFrame(levels, ms, side, lo, rank + 1, |levels|);
  }

  /** Orders of ranks `[i, j)` carry their side and a price of one of those ranks. */
  lemma {:induction false} BetweenPrices(levels: seq<FlatLevel>, side: Side, lo: Price, i: nat, j: nat, n: nat)
    returns (rank: nat, pos: nat)
    requires i <= j <= |levels| && n < |Between(levels, side, lo, i, j)|
    ensures i <= rank < j
    ensures var slot := SlotAt(side, |levels|, rank);
            && pos < |levels[slot].orders| && levels[slot].orders[pos].quantity > 0
            && Between(levels, side, lo, i, j)[n]
               == Order(levels[slot].orders[pos].id, side, lo + slot, levels[slot].orders[pos].quantity)
    decreases j - i
  {
    var slot := SlotAt(side, |levels|, i);
    var first := LevelQueue(levels, side, lo, slot);
    if n < |first| {
      rank := i;
      pos := LiveComesFrom(levels[slot].orders, side, lo + slot, n);
    } else {
      rank, pos := BetweenPrices(levels, side, lo, i + 1, j, n - |first|);
    }
  }

  // ---- Insertion -----------------------------------------------------------------------------

  lemma {:induction false} InsertAfterPrefix(a: seq<Order>, b: seq<Order>, o: Order)
    requires forall i :: 0 <= i < |a| ==> !Better(o.side, o.price, a[i].price)
    ensures Insert(a + b, o) == a + Insert(b, o)
    decreases |a|
  {
    if a == [] {
      assert a + b == b;
    } else {
      assert (a + b)[0] == a[0] && (a + b)[1..] == a[1..] + b;
      InsertAfterPrefix(a[1..], b, o);
      assert [a[0]] + (a[1..] + Insert(b, o)) == a + Insert(b, o);
    }
  }

  lemma {:induction false} InsertBeforeWorse(b: seq<Order>, o: Order)
    requires b != [] ==> Better(o.side, o.price, b[0].price)
    ensures Insert(b, o) == [o] + b
  {
  }

  /** The tail of its own level is where a resting order belongs. */
  lemma {:induction false} InsertAtLevel(levels: seq<FlatLevel>, side: Side, lo: Price, rank: nat, o: Order)
    requires rank < |levels| && o.side == side && o.price == lo + SlotAt(side, |levels|, rank)
    ensures Insert(Queue(levels, side, lo), o)
            == Between(levels, side, lo, 0, rank)
               + (LevelQueue(levels, side, lo, SlotAt(side, |levels|, rank)) + [o])
               + Between(levels, side, lo, rank + 1, |levels|)
  {
    hide Live, Insert, Between, LevelQueue;
    var front := Between(levels, side, lo, 0, rank + 1);
    var back := Between(levels, side, lo, rank + 1, |levels|);
    BetweenSplits(levels, side, lo, 0, rank + 1, |levels|);
    BetweenSplits(levels, side, lo, 0, rank, rank + 1);
    forall i | 0 <= i < |front| ensures !Better(side, o.price, front[i].price) {
      var r, p := BetweenPrices(levels, side, lo, 0, rank + 1, i);
    }
    InsertAfterPrefix(front, back, o);
    if back != [] {
      var r, p := BetweenPrices(levels, side, lo, rank + 1, |levels|, 0);
    }
    InsertBeforeWorse(back, o);
    OneLevel(levels, side, lo, rank);
    var ahead, level := Between(levels, side, lo, 0, rank), LevelQueue(levels, side, lo, SlotAt(side, |levels|, rank));
    Reassociate(ahead, level, [o]);
    Reassociate(ahead + level, [o], back);
  }

  lemma {:induction false} OneLevel(levels: seq<FlatLevel>, side: Side, lo: Price, rank: nat)
    requires rank < |levels|
    ensures Between(levels, side, lo, rank, rank + 1) == LevelQueue(levels, side, lo, SlotAt(side, |levels|, rank))
  {
  }

  // ---- The index -----------------------------------------------------------------------------

  predicate Inside(r: Rep, lo: Price, l: Locator) {
    && 0 <= l.price - lo < |LevelsOf(r, l.side)|
    && l.pos < |LevelsOf(r, l.side)[l.price - lo].orders|
  }

  function EntryAt(r: Rep, lo: Price, l: Locator): FlatOrder
    requires Inside(r, lo, l)
  {
    LevelsOf(r, l.side)[l.price - lo].orders[l.pos]
  }

  /** Every live entry is what the index says about its id. */
  ghost predicate Located(r: Rep, lo: Price) {
    forall l: Locator :: Inside(r, lo, l) && EntryAt(r, lo, l).quantity > 0 ==>
      EntryAt(r, lo, l).id in r.index && r.index[EntryAt(r, lo, l).id] == l
  }

  /** Every indexed id points at its own live entry. */
  ghost predicate Indexed(r: Rep, lo: Price) {
    forall id :: id in r.index ==>
      Inside(r, lo, r.index[id]) && EntryAt(r, lo, r.index[id]).id == id && EntryAt(r, lo, r.index[id]).quantity > 0
  }

  ghost predicate IndexOk(r: Rep, lo: Price) {
    Located(r, lo) && Indexed(r, lo)
  }
}
