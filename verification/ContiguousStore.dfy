/**
 * The contiguous order-book storage: price-indexed levels, occupancy bitmaps, tombstones, compaction.
 * Every operation is proved to do to `BookOf` exactly what the reference book does.
 */
module ContiguousStore {
  import opened Types
  import opened BookSpec
  import opened Bitmap
  import opened FlatLevels
  import opened FlatIndex
  import opened BookTheorems
  import opened BookQueries
  import opened MatchSteps

  // ---- Representation invariant --------------------------------------------------------------

  ghost predicate LevelsOk(levels: seq<FlatLevel>, side: Side, lo: Price, compactMin: nat) {
    forall s :: 0 <= s < |levels| ==> Shaped(levels[s], side, lo + s) && Tidy(levels[s], compactMin)
  }

  ghost predicate RepOk(r: Rep, lo: Price, width: nat, compactMin: nat) {
    && |r.bids| == width && |r.asks| == width
    && LevelsOk(r.bids, Buy, lo, compactMin)
    && LevelsOk(r.asks, Sell, lo, compactMin)
    && IndexOk(r, lo)
  }

  /** The state between touching one level and tidying it. */
  ghost predicate OkBut(r: Rep, lo: Price, width: nat, compactMin: nat, side: Side, slot: nat) {
    && |r.bids| == width && |r.asks| == width && slot < width
    && Shaped(LevelAt(r, side, slot), side, lo + slot)
    && (forall s :: 0 <= s < width && !(side.Buy? && s == slot) ==>
          Shaped(r.bids[s], Buy, lo + s) && Tidy(r.bids[s], compactMin))
    && (forall s :: 0 <= s < width && !(side.Sell? && s == slot) ==>
          Shaped(r.asks[s], Sell, lo + s) && Tidy(r.asks[s], compactMin))
    && IndexOk(r, lo)
  }

  function OccupiedSlots(levels: seq<FlatLevel>): set<int> {
    set s | 0 <= s < |levels| && levels[s].alive > 0
  }

  /** `rank` is the first occupied one at or after `from`. */
  ghost predicate FirstFrom(levels: seq<FlatLevel>, side: Side, from: nat, rank: nat) {
    && from <= rank < |levels|
    && levels[SlotAt(side, |levels|, rank)].alive > 0
    && forall k :: from <= k < rank ==> levels[SlotAt(side, |levels|, k)].alive == 0
  }

  ghost predicate NoneFrom(levels: seq<FlatLevel>, side: Side, from: nat) {
    forall k :: from <= k < |levels| ==> levels[SlotAt(side, |levels|, k)].alive == 0
  }

  lemma {:induction false} QueueFromFirst(levels: seq<FlatLevel>, side: Side, lo: Price, compactMin: nat, from: nat,
                                          rank: nat)
    requires LevelsOk(levels, side, lo, compactMin) && FirstFrom(levels, side, from, rank)
    ensures Between(levels, side, lo, from, |levels|)
            == LevelQueue(levels, side, lo, SlotAt(side, |levels|, rank))
               + Between(levels, side, lo, rank + 1, |levels|)
  {
    BetweenSplits(levels, side, lo, from, rank, |levels|);
    BetweenEmpty(levels, side, lo, from, rank);
  }

  lemma {:induction false} QueueFromNone(levels: seq<FlatLevel>, side: Side, lo: Price, compactMin: nat, from: nat)
    requires LevelsOk(levels, side, lo, compactMin) && NoneFrom(levels, side, from) && from <= |levels|
    ensures Between(levels, side, lo, from, |levels|) == []
  {
    BetweenEmpty(levels, side, lo, from, |levels|);
  }

  lemma {:induction false} OkButRestored(r: Rep, lo: Price, width: nat, compactMin: nat, side: Side, slot: nat)
    requires OkBut(r, lo, width, compactMin, side, slot) && Tidy(LevelAt(r, side, slot), compactMin)
    ensures RepOk(r, lo, width, compactMin)
  {
  }

  lemma {:induction false} OkButParts(r: Rep, lo: Price, width: nat, compactMin: nat, side: Side, slot: nat)
    requires OkBut(r, lo, width, compactMin, side, slot)
    ensures |LevelsOf(r, side)| == width && slot < width
    ensures Shaped(LevelAt(r, side, slot), side, lo + slot) && IndexOk(r, lo)
    ensures LevelAt(r, side, slot).alive <= |LevelAt(r, side, slot).orders|
  {
    LiveIsNotLonger(LevelAt(r, side, slot).orders, side, lo + slot);
  }

  lemma {:induction false} OkIsOkBut(r: Rep, lo: Price, width: nat, compactMin: nat, side: Side, slot: nat)
    requires RepOk(r, lo, width, compactMin) && slot < width
    ensures OkBut(r, lo, width, compactMin, side, slot)
  {
  }

  /** Only the one level may change. */
  lemma {:induction false} OkButUpdate(r: Rep, lo: Price, width: nat, compactMin: nat, side: Side, slot: nat,
                                       level: FlatLevel,
                                       index: map<OrderId, Locator>)
    requires OkBut(r, lo, width, compactMin, side, slot)
    requires Shaped(level, side, lo + slot)
    requires IndexOk(WithLevel(r, side, slot, level).(index := index), lo)
    ensures OkBut(WithLevel(r, side, slot, level).(index := index), lo, width, compactMin, side, slot)
  {
  }

  lemma {:induction false} EmptyRepOk(r: Rep, lo: Price, width: nat, compactMin: nat)
    requires |r.bids| == width && |r.asks| == width && r.index == map[]
    requires forall s :: 0 <= s < width ==> r.bids[s] == EMPTY_LEVEL && r.asks[s] == EMPTY_LEVEL
    ensures RepOk(r, lo, width, compactMin)
    ensures BookOf(r, lo) == EMPTY_BOOK
    ensures OccupiedSlots(r.bids) == {} && OccupiedSlots(r.asks) == {}
  {
    EmptyLevelsOk(r.bids, Buy, lo, compactMin);
    EmptyLevelsOk(r.asks, Sell, lo, compactMin);
    assert forall l: Locator :: !Inside(r, lo, l);
  }

  lemma {:induction false} EmptyLevelsOk(levels: seq<FlatLevel>, side: Side, lo: Price, compactMin: nat)
    requires forall s :: 0 <= s < |levels| ==> levels[s] == EMPTY_LEVEL
    ensures LevelsOk(levels, side, lo, compactMin)
    ensures Queue(levels, side, lo) == [] && OccupiedSlots(levels) == {}
  {
    forall s | 0 <= s < |levels| ensures Shaped(levels[s], side, lo + s) && Tidy(levels[s], compactMin) {
      assert Live([], side, lo + s) == [];
    }
    assert NoneFrom(levels, side, 0);
    QueueFromNone(levels, side, lo, compactMin, 0);
  }

  lemma {:induction false} DownIsFirst(levels: seq<FlatLevel>, from: nat, r: Option<nat>)
    requires from < |levels|
    requires r.None? ==> forall s :: s in OccupiedSlots(levels) ==> from < s
    requires r.Some? ==> r.value in OccupiedSlots(levels) && r.value <= from
    requires r.Some? ==> forall s :: s in OccupiedSlots(levels) && s <= from ==> s <= r.value
    ensures var rank := |levels| - 1 - from;
            && (r.None? ==> NoneFrom(levels, Buy, rank))
            && (r.Some? ==> FirstFrom(levels, Buy, rank, |levels| - 1 - r.value))
  {
    var rank := |levels| - 1 - from;
    forall k | rank <= k < |levels| && (r.None? || k < |levels| - 1 - r.value)
      ensures levels[SlotAt(Buy, |levels|, k)].alive == 0
    {
      assert SlotAt(Buy, |levels|, k) !in OccupiedSlots(levels);
    }
  }

  lemma {:induction false} UpIsFirst(levels: seq<FlatLevel>, from: nat, r: Option<nat>)
    requires r.None? ==> forall s :: s in OccupiedSlots(levels) ==> s < from
    requires r.Some? ==> r.value in OccupiedSlots(levels) && from <= r.value
    requires r.Some? ==> forall s :: s in OccupiedSlots(levels) && from <= s ==> r.value <= s
    ensures r.None? ==> NoneFrom(levels, Sell, from)
    ensures r.Some? ==> FirstFrom(levels, Sell, from, r.value)
  {
    forall k | from <= k < |levels| && (r.None? || k < r.value)
      ensures levels[SlotAt(Sell, |levels|, k)].alive == 0
    {
      assert k !in OccupiedSlots(levels);
    }
  }

  // ---- One maker -----------------------------------------------------------------------------

  /** What is left of a level after its head entry gives up `traded`. */
  lemma {:induction false} HeadFilled(l: FlatLevel, side: Side, price: Price, traded: Quantity)
    requires Shaped(l, side, price) && l.alive > 0 && 0 < traded <= l.orders[l.head].quantity
    ensures var e := l.orders[l.head];
            var orders := l.orders[l.head := e.(quantity := e.quantity - traded)];
            && Live(l.orders, side, price)
               == [Order(e.id, side, price, e.quantity)] + Live(l.orders[l.head + 1..], side, price)
            && Live(orders, side, price)
               == (if traded == e.quantity then [] else [Order(e.id, side, price, e.quantity - traded)])
                  + Live(l.orders[l.head + 1..], side, price)
  {
    LiveAt(l.orders, l.head, side, price);
    LiveUpdate(l.orders, l.head, l.orders[l.head].quantity - traded, side, price);
    LiveDead(l.orders[..l.head], side, price);
  }

  /** The level after the entry at `pos` died and a dead head was skipped. */
  function KilledLevel(l: FlatLevel, pos: nat): FlatLevel
    requires pos < |l.orders| && l.head <= |l.orders| && l.alive > 0
  {
    var orders := l.orders[pos := l.orders[pos].(quantity := 0)];
    FlatLevel(orders, if pos == l.head then NextLive(orders, l.head) else l.head, l.alive - 1)
  }

  lemma {:induction false} KilledShaped(l: FlatLevel, pos: nat, side: Side, price: Price)
    requires Shaped(l, side, price) && l.alive > 0 && pos < |l.orders| && l.orders[pos].quantity > 0
    ensures Shaped(KilledLevel(l, pos), side, price)
  {
    var k := KilledLevel(l, pos);
    LiveAt(l.orders, pos, side, price);
    LiveUpdate(l.orders, pos, 0, side, price);
    if k.head == |k.orders| {
      LiveDead(k.orders, side, price);
    }
  }

  lemma {:induction false} ReducedShaped(l: FlatLevel, pos: nat, k: FlatLevel, side: Side, price: Price)
    requires Shaped(l, side, price) && pos < |l.orders| && l.orders[pos].quantity > 0
    requires k.head == l.head && k.alive == l.alive
    requires exists n :: n > 0 && k.orders == l.orders[pos := l.orders[pos].(quantity := n)]
    ensures Shaped(k, side, price)
  {
    var n :| n > 0 && k.orders == l.orders[pos := l.orders[pos].(quantity := n)];
    LiveAt(l.orders, pos, side, price);
    LiveUpdate(l.orders, pos, n, side, price);
  }

  lemma {:induction false} AllDead(l: FlatLevel, side: Side, price: Price)
    requires Shaped(l, side, price) && l.alive == 0
    ensures forall i :: 0 <= i < |l.orders| ==> l.orders[i].quantity == 0
  {
    forall i | 0 <= i < |l.orders| ensures l.orders[i].quantity == 0 {
      LiveAt(l.orders, i, side, price);
    }
  }

  /** What a pass over one level may touch. */
  ghost predicate OnlyLevel(was: Rep, now: Rep, side: Side, slot: nat) {
    && slot < |LevelsOf(was, side)| && slot < |LevelsOf(now, side)|
    && now == WithLevel(was, side, slot, LevelAt(now, side, slot)).(index := now.index)
  }

  lemma {:induction false} ClearedRep(r: Rep, lo: Price, width: nat, compactMin: nat, side: Side, slot: nat)
    requires OkBut(r, lo, width, compactMin, side, slot) && LevelAt(r, side, slot).alive == 0
    ensures var u := WithLevel(r, side, slot, EMPTY_LEVEL);
            && RepOk(u, lo, width, compactMin) && BookOf(u, lo) == BookOf(r, lo)
            && OccupiedSlots(LevelsOf(u, side)) == OccupiedSlots(LevelsOf(r, side)) - {slot}
  {
    hide IndexOk, Between;
    var level := LevelAt(r, side, slot);
    AllDead(level, side, lo + slot);
    LiveDead(level.orders, side, lo + slot);
    assert Live([], side, lo + slot) == [];
    ClearKeepsIndex(r, lo, side, slot);
    SameLiveSameBook(r, lo, side, slot, EMPTY_LEVEL);
    OkButUpdate(r, lo, width, compactMin, side, slot, EMPTY_LEVEL, r.index);
    OkButRestored(WithLevel(r, side, slot, EMPTY_LEVEL), lo, width, compactMin, side, slot);
  }

  lemma {:induction false} CompactedRep(r: Rep, lo: Price, width: nat, compactMin: nat, side: Side, slot: nat)
    requires OkBut(r, lo, width, compactMin, side, slot) && LevelAt(r, side, slot).alive > 0
    ensures var u := CompactTo(r, lo, side, slot);
            && RepOk(u, lo, width, compactMin) && BookOf(u, lo) == BookOf(r, lo)
            && LevelAt(r, side, slot).alive == |Compacted(LevelAt(r, side, slot).orders)|
  {
    hide Live, IndexOk, Between;
    var level := LevelAt(r, side, slot);
    var c := level.(orders := Compacted(level.orders), head := 0);
    var index := Repoint(r.index, side, lo + slot, level.orders, |level.orders|);
    CompactedIsLive(level.orders, side, lo + slot);
    CompactKeepsIndex(r, lo, side, slot, c);
    SameLiveSameBook(r, lo, side, slot, c);
    OkButUpdate(r, lo, width, compactMin, side, slot, c, index);
    OkButRestored(WithLevel(r, side, slot, c).(index := index), lo, width, compactMin, side, slot);
  }

  lemma {:induction false} HeadIsLive(l: FlatLevel, side: Side, price: Price)
    requires Shaped(l, side, price)
    ensures l.head <= |l.orders|
    ensures l.alive > 0 ==> l.head < |l.orders| && l.orders[l.head].quantity > 0
  {
  }

  /** The state after the head maker of a level was hit for at most `quantity`. */
  function Filled(r: Rep, side: Side, slot: nat, quantity: Quantity): Rep
    requires slot < |LevelsOf(r, side)|
    requires LevelAt(r, side, slot).head < |LevelAt(r, side, slot).orders| && LevelAt(r, side, slot).alive > 0
  {
    var l := LevelAt(r, side, slot);
    var e := l.orders[l.head];
    if e.quantity <= quantity then
      WithLevel(r, side, slot, KilledLevel(l, l.head)).(index := r.index - {e.id})
    else
      WithLevel(r, side, slot, l.(orders := l.orders[l.head := e.(quantity := e.quantity - quantity)]))
  }

  lemma {:induction false} FilledOk(r: Rep, lo: Price, width: nat, compactMin: nat, side: Side, slot: nat,
                                    quantity: Quantity)
    requires OkBut(r, lo, width, compactMin, side, slot) && LevelAt(r, side, slot).alive > 0 && quantity > 0
    ensures OkBut(Filled(r, side, slot, quantity), lo, width, compactMin, side, slot)
  {
    hide Live, IndexOk, Shaped, Tidy, NextLive;
    var l := LevelAt(r, side, slot);
    HeadIsLive(l, side, lo + slot);
    var e := l.orders[l.head];
    if e.quantity <= quantity {
      var k := KilledLevel(l, l.head);
      KillKeepsIndex(r, lo, side, slot, l.head, k);
      KilledShaped(l, l.head, side, lo + slot);
      OkButUpdate(r, lo, width, compactMin, side, slot, k, r.index - {e.id});
    } else {
      var n := e.quantity - quantity;
      var k := l.(orders := l.orders[l.head := e.(quantity := n)]);
      ResizeKeepsIndex(r, lo, side, slot, l.head, n, k);
      ReducedShaped(l, l.head, k, side, lo + slot);
      OkButUpdate(r, lo, width, compactMin, side, slot, k, r.index);
    }
  }

  lemma {:induction false} FilledShaped(r: Rep, lo: Price, side: Side, slot: nat, quantity: Quantity)
    requires slot < |LevelsOf(r, side)| && Shaped(LevelAt(r, side, slot), side, lo + slot)
    requires LevelAt(r, side, slot).alive > 0 && quantity > 0
    ensures var u := Filled(r, side, slot, quantity);
            && |LevelsOf(u, side)| == |LevelsOf(r, side)| && Shaped(LevelAt(u, side, slot), side, lo + slot)
  {
    hide Shaped, Live, NextLive;
    var l := LevelAt(r, side, slot);
    HeadIsLive(l, side, lo + slot);
    var e := l.orders[l.head];
    if e.quantity <= quantity {
      KilledShaped(l, l.head, side, lo + slot);
    } else {
      var n := e.quantity - quantity;
      ReducedShaped(l, l.head, l.(orders := l.orders[l.head := e.(quantity := n)]), side, lo + slot);
    }
  }

  /** Hitting the head maker is one step of the reference match. */
  lemma {:induction false} FilledMatches(r: Rep, lo: Price, side: Side, slot: nat, quantity: Quantity, t: Taker,
                                         rest: seq<Order>)
    requires slot < |LevelsOf(r, side)| && Shaped(LevelAt(r, side, slot), side, lo + slot)
    requires LevelAt(r, side, slot).alive > 0 && quantity > 0 && Crosses(t, lo + slot)
    ensures var l := LevelAt(r, side, slot);
            var e := l.orders[l.head];
            var traded := Min(quantity, e.quantity);
            Match(t, Live(l.orders, side, lo + slot) + rest, quantity)
            == After([Trade(t.id, e.id, lo + slot, traded)],
                     Match(t, Live(LevelAt(Filled(r, side, slot, quantity), side, slot).orders, side, lo + slot) + rest,
                           quantity - traded))
  {
    hide Match, Live;
    var l := LevelAt(r, side, slot);
    var e := l.orders[l.head];
    var traded := Min(quantity, e.quantity);
    var o := Order(e.id, side, lo + slot, e.quantity);
    var tail := Live(l.orders[l.head + 1..], side, lo + slot);
    var kept := if traded == o.quantity then [] else [o.(quantity := o.quantity - traded)];
    assert Live(l.orders, side, lo + slot) + rest == [o] + (tail + rest) by {
      HeadFilled(l, side, lo + slot, traded);
    }
    assert Live(LevelAt(Filled(r, side, slot, quantity), side, slot).orders, side, lo + slot) + rest
        == kept + (tail + rest) by {
      HeadFilled(l, side, lo + slot, traded);
      FilledOrders(r, side, slot, quantity);
    }
    FillStep(t, o, tail + rest, quantity);
  }

  lemma {:induction false} FilledOrders(r: Rep, side: Side, slot: nat, quantity: Quantity)
    requires slot < |LevelsOf(r, side)|
    requires LevelAt(r, side, slot).head < |LevelAt(r, side, slot).orders| && LevelAt(r, side, slot).alive > 0
    ensures var l := LevelAt(r, side, slot);
            var e := l.orders[l.head];
            LevelAt(Filled(r, side, slot, quantity), side, slot).orders
            == l.orders[l.head := e.(quantity := e.quantity - Min(quantity, e.quantity))]
  {
  }

  datatype FillResult = FillResult(rep: Rep, trades: seq<Trade>, left: Quantity)

  function Prepend(made: seq<Trade>, f: FillResult): FillResult {
    f.(trades := made + f.trades)
  }

  lemma {:induction false} PrependTwice(a: seq<Trade>, b: seq<Trade>, f: FillResult)
    ensures Prepend(a, Prepend(b, f)) == Prepend(a + b, f)
  {
    assert a + (b + f.trades) == a + b + f.trades;
  }

  lemma {:induction false} PrependNothing(f: FillResult)
    ensures Prepend([], f) == f
    ensures Prepend(f.trades, f.(trades := [])) == f
  {
    assert [] + f.trades == f.trades;
  }

  /** A level hit until the taker or the level is used up. */
  function FillAll(r: Rep, lo: Price, side: Side, slot: nat, takerId: OrderId, quantity: Quantity): FillResult
    requires slot < |LevelsOf(r, side)|
    decreases quantity
  {
    var l := LevelAt(r, side, slot);
    if quantity == 0 || l.alive == 0 || l.head >= |l.orders| || l.orders[l.head].quantity == 0 then
      FillResult(r, [], quantity)
    else
      var traded := Min(quantity, l.orders[l.head].quantity);
      Prepend([Trade(takerId, l.orders[l.head].id, lo + slot, traded)],
              FillAll(Filled(r, side, slot, quantity), lo, side, slot, takerId, quantity - traded))
  }

  lemma {:induction false} FillAllOnce(r: Rep, lo: Price, side: Side, slot: nat, takerId: OrderId, quantity: Quantity)
    requires slot < |LevelsOf(r, side)| && Shaped(LevelAt(r, side, slot), side, lo + slot)
    ensures var l := LevelAt(r, side, slot);
            if quantity == 0 || l.alive == 0 then
              FillAll(r, lo, side, slot, takerId, quantity) == FillResult(r, [], quantity)
            else
              && l.head < |l.orders|
              && (var traded := Min(quantity, l.orders[l.head].quantity);
                  FillAll(r, lo, side, slot, takerId, quantity)
                  == Prepend([Trade(takerId, l.orders[l.head].id, lo + slot, traded)],
                             FillAll(Filled(r, side, slot, quantity), lo, side, slot, takerId, quantity - traded)))
  {
    hide Live, Filled;
  }

  lemma {:induction false} FillAllOk(r: Rep, lo: Price, width: nat, compactMin: nat, side: Side, slot: nat,
                                     takerId: OrderId, quantity: Quantity)
    requires OkBut(r, lo, width, compactMin, side, slot)
    ensures var f := FillAll(r, lo, side, slot, takerId, quantity);
            && OkBut(f.rep, lo, width, compactMin, side, slot)
            && OnlyLevel(r, f.rep, side, slot)
            && f.left <= quantity
            && (quantity > 0 && LevelAt(r, side, slot).alive > 0 ==> f.left < quantity)
            && (f.left == 0 || LevelAt(f.rep, side, slot).alive == 0)
    decreases quantity
  {
    hide Live, OkBut, Shaped, IndexOk, Filled, OnlyLevel;
    OkButParts(r, lo, width, compactMin, side, slot);
    var l := LevelAt(r, side, slot);
    HeadIsLive(l, side, lo + slot);
    OnlyLevelSame(r, side, slot);
    if quantity > 0 && l.alive > 0 {
      var n, left := Filled(r, side, slot, quantity), quantity - Min(quantity, l.orders[l.head].quantity);
      FilledOk(r, lo, width, compactMin, side, slot, quantity);
      FilledOnly(r, side, slot, quantity);
      FillAllOk(n, lo, width, compactMin, side, slot, takerId, left);
      OnlyLevelTwice(r, n, FillAll(n, lo, side, slot, takerId, left).rep, side, slot);
    }
  }

  lemma {:induction false} OnlyLevelSame(r: Rep, side: Side, slot: nat)
    requires slot < |LevelsOf(r, side)|
    ensures OnlyLevel(r, r, side, slot)
  {
  }

  lemma {:induction false} OnlyLevelTwice(a: Rep, b: Rep, c: Rep, side: Side, slot: nat)
    requires OnlyLevel(a, b, side, slot) && OnlyLevel(b, c, side, slot)
    ensures OnlyLevel(a, c, side, slot)
  {
  }

  lemma {:induction false} FilledOnly(r: Rep, side: Side, slot: nat, quantity: Quantity)
    requires slot < |LevelsOf(r, side)|
    requires LevelAt(r, side, slot).head < |LevelAt(r, side, slot).orders| && LevelAt(r, side, slot).alive > 0
    ensures slot < |LevelsOf(Filled(r, side, slot, quantity), side)|
    ensures OnlyLevel(r, Filled(r, side, slot, quantity), side, slot)
  {
    hide NextLive;
  }

  /** Hitting a level is a stretch of the reference match. */
  lemma {:induction false} FillAllMatches(r: Rep, lo: Price, side: Side, slot: nat, quantity: Quantity, t: Taker,
                                          rest: seq<Order>)
    requires slot < |LevelsOf(r, side)| && Shaped(LevelAt(r, side, slot), side, lo + slot) && Crosses(t, lo + slot)
    ensures var f := FillAll(r, lo, side, slot, t.id, quantity);
            && slot < |LevelsOf(f.rep, side)|
            && Match(t, Live(LevelAt(r, side, slot).orders, side, lo + slot) + rest, quantity)
               == After(f.trades, Match(t, Live(LevelAt(f.rep, side, slot).orders, side, lo + slot) + rest, f.left))
    decreases quantity
  {
    hide Match, Live, Filled, Shaped;
    var l := LevelAt(r, side, slot);
    HeadIsLive(l, side, lo + slot);
    if quantity > 0 && l.alive > 0 {
      FilledMatches(r, lo, side, slot, quantity, t, rest);
      FilledShaped(r, lo, side, slot, quantity);
      FillAllMatches(Filled(r, side, slot, quantity), lo, side, slot,
                     quantity - Min(quantity, l.orders[l.head].quantity), t, rest);
    }
  }

  /** Filling the best level advances the reference match over the whole side. */
  lemma {:induction false} FillAllIsMatch(r: Rep, lo: Price, width: nat, compactMin: nat, side: Side, rank: nat,
                                          t: Taker,
                                          quantity: Quantity)
    requires RepOk(r, lo, width, compactMin) && FirstFrom(LevelsOf(r, side), side, 0, rank)
    requires Crosses(t, lo + SlotAt(side, width, rank))
    ensures var slot := SlotAt(side, width, rank);
            var f := FillAll(r, lo, side, slot, t.id, quantity);
            && OnlyLevel(r, f.rep, side, slot)
            && Match(t, SideOf(BookOf(r, lo), side), quantity)
               == After(f.trades, Match(t, SideOf(BookOf(f.rep, lo), side), f.left))
            && SideOf(BookOf(f.rep, lo), Opposite(side)) == SideOf(BookOf(r, lo), Opposite(side))
  {
    hide Match, Live, Between, FillAll, Shaped, Tidy, IndexOk;
    var slot := SlotAt(side, width, rank);
    var levels := LevelsOf(r, side);
    var f := FillAll(r, lo, side, slot, t.id, quantity);
    var rest := Between(levels, side, lo, rank + 1, |levels|);
    OkIsOkBut(r, lo, width, compactMin, side, slot);
    FillAllOk(r, lo, width, compactMin, side, slot, t.id, quantity);
    FillAllMatches(r, lo, side, slot, quantity, t, rest);
    QueueFromFirst(levels, side, lo, compactMin, 0, rank);
    var level := LevelAt(f.rep, side, slot);
    assert LevelsOf(f.rep, side) == levels[slot := level];
    QueueUpdate(levels, side, lo, rank, level);
    NothingBefore(levels, side, lo, compactMin, rank);
    assert [] + Live(level.orders, side, lo + slot) == Live(level.orders, side, lo + slot);
  }

  lemma {:induction false} NothingBefore(levels: seq<FlatLevel>, side: Side, lo: Price, compactMin: nat, rank: nat)
    requires LevelsOk(levels, side, lo, compactMin) && FirstFrom(levels, side, 0, rank)
    ensures Between(levels, side, lo, 0, rank) == []
  {
    BetweenEmpty(levels, side, lo, 0, rank);
  }

  lemma {:induction false} OccupiedAfter(was: Rep, now: Rep, side: Side, slot: nat)
    requires OnlyLevel(was, now, side, slot) && LevelAt(was, side, slot).alive > 0
    ensures OccupiedSlots(LevelsOf(was, side)) == OccupiedSlots(LevelsOf(now, side)) + {slot}
    ensures LevelsOf(was, Opposite(side)) == LevelsOf(now, Opposite(side))
  {
  }

  /** The price at the front of a side is the price of its first occupied rank. */
  lemma {:induction false} FrontPrice(levels: seq<FlatLevel>, side: Side, lo: Price, compactMin: nat, rank: nat)
    requires LevelsOk(levels, side, lo, compactMin) && FirstFrom(levels, side, 0, rank)
    ensures Queue(levels, side, lo) != []
    ensures Queue(levels, side, lo)[0].price == lo + SlotAt(side, |levels|, rank)
  {
    var slot := SlotAt(side, |levels|, rank);
    QueueFromFirst(levels, side, lo, compactMin, 0, rank);
    var q := LevelQueue(levels, side, lo, slot);
    assert |q| > 0;
    var pos := LiveComesFrom(levels[slot].orders, side, lo + slot, 0);
  }

  /** What a best-slot answer says about the front of the side. */
  lemma {:induction false} SideFront(r: Rep, lo: Price, width: nat, compactMin: nat, side: Side, slot: Option<nat>,
                                     rank: nat)
    requires RepOk(r, lo, width, compactMin)
    requires slot.None? ==> NoneFrom(LevelsOf(r, side), side, 0)
    requires slot.Some? ==> FirstFrom(LevelsOf(r, side), side, 0, rank) && slot.value == SlotAt(side, width, rank)
    ensures slot.None? ==> SideOf(BookOf(r, lo), side) == []
    ensures slot.Some? ==> SideOf(BookOf(r, lo), side) != [] && SideOf(BookOf(r, lo), side)[0].price == lo + slot.value
  {
    if slot.None? {
      QueueFromNone(LevelsOf(r, side), side, lo, compactMin, 0);
    } else {
      FrontPrice(LevelsOf(r, side), side, lo, compactMin, rank);
    }
  }

  lemma {:induction false} OccupiedHas(levels: seq<FlatLevel>, slot: nat)
    requires slot < |levels| && levels[slot].alive > 0
    ensures OccupiedSlots(levels) + {slot} == OccupiedSlots(levels)
  {
  }

  lemma {:induction false} RepSide(r: Rep, lo: Price, width: nat, compactMin: nat, side: Side)
    requires RepOk(r, lo, width, compactMin)
    ensures |LevelsOf(r, side)| == width && LevelsOk(LevelsOf(r, side), side, lo, compactMin)
  {
  }

  lemma {:induction false} LevelIsShaped(levels: seq<FlatLevel>, side: Side, lo: Price, compactMin: nat, slot: nat)
    requires LevelsOk(levels, side, lo, compactMin) && slot < |levels|
    ensures Shaped(levels[slot], side, lo + slot)
  {
  }

  lemma {:induction false} RepWidth(r: Rep, lo: Price, width: nat, compactMin: nat)
    requires RepOk(r, lo, width, compactMin)
    ensures |r.bids| == width && |r.asks| == width
  {
  }

  /** The index answers for the book. */
  lemma {:induction false} RepIndex(r: Rep, lo: Price, width: nat, compactMin: nat, id: OrderId)
    requires RepOk(r, lo, width, compactMin)
    ensures Contains(BookOf(r, lo), id) <==> id in r.index
    ensures id in r.index ==>
              var l := r.index[id];
              && Inside(r, lo, l)
              && Find(BookOf(r, lo), id) == Order(id, l.side, l.price, EntryAt(r, lo, l).quantity)
  {
    IndexIsTheBook(r, lo, id);
  }

  // ---- Resting and removing ------------------------------------------------------------------

  /** The state after one more order rests at the tail of a level. */
  function Rested(r: Rep, lo: Price, side: Side, slot: nat, e: FlatOrder): Rep
    requires slot < |LevelsOf(r, side)|
  {
    var l := LevelAt(r, side, slot);
    WithLevel(r, side, slot, l.(orders := l.orders + [e], alive := l.alive + 1))
    .(index := r.index[e.id := Locator(side, lo + slot, |l.orders|)])
  }

  lemma {:induction false} RestedShaped(l: FlatLevel, e: FlatOrder, side: Side, price: Price, compactMin: nat)
    requires Shaped(l, side, price) && Tidy(l, compactMin) && e.quantity > 0
    ensures var k := l.(orders := l.orders + [e], alive := l.alive + 1);
            Shaped(k, side, price) && Tidy(k, compactMin)
  {
    LiveAppend(l.orders, e, side, price);
  }

  lemma {:induction false} RestedOk(r: Rep, lo: Price, width: nat, compactMin: nat, side: Side, slot: nat, e: FlatOrder)
    requires RepOk(r, lo, width, compactMin) && slot < width && e.quantity > 0 && e.id !in r.index
    ensures var u := Rested(r, lo, side, slot, e);
            && RepOk(u, lo, width, compactMin)
            && OccupiedSlots(LevelsOf(u, side)) == OccupiedSlots(LevelsOf(r, side)) + {slot}
            && LevelsOf(u, Opposite(side)) == LevelsOf(r, Opposite(side))
            && BookOf(u, lo) == WithSide(BookOf(r, lo), side,
                                         Insert(SideOf(BookOf(r, lo), side), Order(e.id, side, lo + slot, e.quantity)))
  {
    hide Live, Between, Insert, IndexOk, Shaped, Tidy;
    var l := LevelAt(r, side, slot);
    var k := l.(orders := l.orders + [e], alive := l.alive + 1);
    RestedShaped(l, e, side, lo + slot, compactMin);
    AppendKeepsIndex(r, lo, side, slot, e, k);
    AppendIsInsert(r, lo, side, slot, e, k);
    OkIsOkBut(r, lo, width, compactMin, side, slot);
    OkButUpdate(r, lo, width, compactMin, side, slot, k, Rested(r, lo, side, slot, e).index);
    OkButRestored(Rested(r, lo, side, slot, e), lo, width, compactMin, side, slot);
  }

  /** The state after an indexed order was tombstoned, before its level is tidied. */
  function Tombstoned(r: Rep, lo: Price, id: OrderId, level: FlatLevel): Rep
    requires id in r.index && Inside(r, lo, r.index[id])
  {
    WithLevel(r, r.index[id].side, r.index[id].price - lo, level).(index := r.index - {id})
  }

  lemma {:induction false} LocatedOrder(r: Rep, lo: Price, width: nat, compactMin: nat, id: OrderId)
    requires RepOk(r, lo, width, compactMin) && id in r.index
    ensures var l := r.index[id];
            && Inside(r, lo, l) && EntryAt(r, lo, l).id == id && EntryAt(r, lo, l).quantity > 0
            && l.price - lo < width
            && Shaped(LevelAt(r, l.side, l.price - lo), l.side, l.price)
            && 0 < LevelAt(r, l.side, l.price - lo).alive
  {
    hide Live;
    var l := r.index[id];
    var level := LevelAt(r, l.side, l.price - lo);
    LiveAt(level.orders, l.pos, l.side, l.price);
  }

  lemma {:induction false} LastKilledShaped(l: FlatLevel, pos: nat, side: Side, price: Price)
    requires Shaped(l, side, price) && l.alive == 1 && pos < |l.orders| && l.orders[pos].quantity > 0
    ensures Shaped(FlatLevel(l.orders[pos := l.orders[pos].(quantity := 0)], l.head, 0), side, price)
  {
    LiveAt(l.orders, pos, side, price);
    LiveUpdate(l.orders, pos, 0, side, price);
  }

  lemma {:induction false} TombstonedOk(r: Rep, lo: Price, width: nat, compactMin: nat, id: OrderId, level: FlatLevel)
    requires id in r.index && Inside(r, lo, r.index[id])
    requires var l := r.index[id];
             && Shaped(level, l.side, l.price)
             && level.orders == LevelAt(r, l.side, l.price - lo).orders[l.pos := EntryAt(r, lo, l).(quantity := 0)]
    requires RepOk(r, lo, width, compactMin)
    ensures var l := r.index[id];
            var u := Tombstoned(r, lo, id, level);
            && OkBut(u, lo, width, compactMin, l.side, l.price - lo)
            && BookOf(u, lo) == Cancel(BookOf(r, lo), id)
            && OnlyLevel(r, u, l.side, l.price - lo)
  {
    hide Live, Between, Shaped, Tidy, Cancel;
    var l := r.index[id];
    assert EntryAt(r, lo, l).id == id && EntryAt(r, lo, l).quantity > 0;
    KillKeepsIndex(r, lo, l.side, l.price - lo, l.pos, level);
    KillIsCancel(r, lo, id, level);
    OkIsOkBut(r, lo, width, compactMin, l.side, l.price - lo);
    OkButUpdate(r, lo, width, compactMin, l.side, l.price - lo, level, r.index - {id});
  }

  // ---- Dry runs ------------------------------------------------------------------------------

  /** One entry of a level under a dry run; a tombstone takes nothing and is not counted. */
  lemma {:induction false} ScanEntry(t: Taker, orders: seq<FlatOrder>, i: nat, side: Side, price: Price,
                                     rest: seq<Order>,
                                     quantity: Quantity)
    requires i < |orders| && quantity > 0 && Crosses(t, price)
    ensures var left := quantity - Min(quantity, orders[i].quantity);
            var q := Live(orders[i..], side, price) + rest;
            var q' := Live(orders[i + 1..], side, price) + rest;
            && Remainder(t, q, quantity) == Remainder(t, q', left)
            && Hits(t, q, quantity) == (if orders[i].quantity > 0 then 1 else 0) + Hits(t, q', left)
  {
    hide Remainder, Hits;
    var e := orders[i];
    var tail := Live(orders[i + 1..], side, price);
    assert orders[i..][1..] == orders[i + 1..];
    if e.quantity > 0 {
      var o := Order(e.id, side, price, e.quantity);
      assert Live(orders[i..], side, price) + rest == [o] + (tail + rest);
      ScanMaker(t, o, tail + rest, quantity);
    } else {
      assert Live(orders[i..], side, price) == tail;
    }
  }

  lemma {:induction false} ScanLevelEnd(t: Taker, orders: seq<FlatOrder>, i: nat, side: Side, price: Price,
                                        rest: seq<Order>,
                                        left: Quantity)
    requires i <= |orders| && (left == 0 || i == |orders|)
    ensures var q := Live(orders[i..], side, price) + rest;
            Remainder(t, q, left) == Remainder(t, rest, left) && Hits(t, q, left) == Hits(t, rest, left)
  {
    if left == 0 {
      ScanNothing(t, Live(orders[i..], side, price) + rest, 0);
      ScanNothing(t, rest, 0);
    } else {
      assert Live(orders[i..], side, price) + rest == rest;
    }
  }

  lemma {:induction false} RankIsInside(levels: seq<FlatLevel>, side: Side, from: nat, slot: nat, rank: nat)
    requires FirstFrom(levels, side, from, rank) && slot == SlotAt(side, |levels|, rank)
    ensures from <= rank < |levels| && slot < |levels| && SlotAt(side, |levels|, slot) == rank
  {
  }

  /** Where a best-first walk of a side stands: at the first occupied rank from `from`, or past the end. */
  ghost predicate AtRank(levels: seq<FlatLevel>, side: Side, from: nat, slot: Option<nat>, rank: nat) {
    && from <= |levels|
    && (slot.None? ==> NoneFrom(levels, side, from))
    && (slot.Some? ==> FirstFrom(levels, side, from, rank) && slot.value == SlotAt(side, |levels|, rank))
  }

  lemma {:induction false} WalkEnds(levels: seq<FlatLevel>, side: Side, lo: Price, compactMin: nat, from: nat,
                                    slot: Option<nat>,
                                    rank: nat, t: Taker, quantity: Quantity)
    requires LevelsOk(levels, side, lo, compactMin) && AtRank(levels, side, from, slot, rank)
    requires slot.None? || quantity == 0 || !Crosses(t, lo + slot.value)
    ensures var q := Between(levels, side, lo, from, |levels|);
            Remainder(t, q, quantity) == quantity && Hits(t, q, quantity) == 0
  {
    hide Remainder, Hits, Between, Live;
    var q := Between(levels, side, lo, from, |levels|);
    if slot.None? {
      QueueFromNone(levels, side, lo, compactMin, from);
    } else {
      QueueFromFirst(levels, side, lo, compactMin, from, rank);
      var pos := LiveComesFrom(levels[slot.value].orders, side, lo + slot.value, 0);
      assert q[0].price == lo + slot.value;
    }
    ScanNothing(t, q, quantity);
  }

  /** The state after an indexed order was reduced in place. */
  function Reduced(r: Rep, lo: Price, id: OrderId, n: Quantity): Rep
    requires id in r.index && Inside(r, lo, r.index[id])
  {
    var l := r.index[id];
    var level := LevelAt(r, l.side, l.price - lo);
    WithLevel(r, l.side, l.price - lo, level.(orders := level.orders[l.pos := level.orders[l.pos].(quantity := n)]))
  }

  lemma {:induction false} ReducedOk(r: Rep, lo: Price, width: nat, compactMin: nat, id: OrderId, n: Quantity)
    requires id in r.index && n > 0 && Inside(r, lo, r.index[id]) && RepOk(r, lo, width, compactMin)
    ensures var u := Reduced(r, lo, id, n);
            var side := r.index[id].side;
            && RepOk(u, lo, width, compactMin)
            && BookOf(u, lo) == WithSide(BookOf(r, lo), side, Resize(SideOf(BookOf(r, lo), side), id, n))
            && OccupiedSlots(u.bids) == OccupiedSlots(r.bids) && OccupiedSlots(u.asks) == OccupiedSlots(r.asks)
  {
    hide RepOk, IndexOk, Resize, Shaped, BookOf, OccupiedSlots;
    var l := r.index[id];
    var slot := l.price - lo;
    LocatedOrder(r, lo, width, compactMin, id);
    var level := LevelAt(r, l.side, slot);
    var k := level.(orders := level.orders[l.pos := level.orders[l.pos].(quantity := n)]);
    RepParts(r, lo, width, compactMin, l.side, slot);
    ReducedKeepsRep(r, lo, width, compactMin, id, n);
    ReducedKeepsSlots(r, l.side, slot, k);
    ReduceIsResize(r, lo, id, n, k);
  }

  lemma {:induction false} RepParts(r: Rep, lo: Price, width: nat, compactMin: nat, side: Side, slot: nat)
    requires RepOk(r, lo, width, compactMin) && slot < |LevelsOf(r, side)|
    ensures IndexOk(r, lo) && Tidy(LevelAt(r, side, slot), compactMin)
  {
  }

  lemma {:induction false} ReducedKeepsSlots(r: Rep, side: Side, slot: nat, level: FlatLevel)
    requires slot < |LevelsOf(r, side)| && level.alive == LevelAt(r, side, slot).alive
    ensures var u := WithLevel(r, side, slot, level);
            OccupiedSlots(u.bids) == OccupiedSlots(r.bids) && OccupiedSlots(u.asks) == OccupiedSlots(r.asks)
  {
  }

  lemma {:induction false} ReducedKeepsRep(r: Rep, lo: Price, width: nat, compactMin: nat, id: OrderId, n: Quantity)
    requires id in r.index && n > 0 && Inside(r, lo, r.index[id]) && RepOk(r, lo, width, compactMin)
    ensures RepOk(Reduced(r, lo, id, n), lo, width, compactMin)
  {
    hide RepOk, IndexOk, OkBut, Shaped;
    var l := r.index[id];
    var slot := l.price - lo;
    LocatedOrder(r, lo, width, compactMin, id);
    var level := LevelAt(r, l.side, slot);
    var k := level.(orders := level.orders[l.pos := level.orders[l.pos].(quantity := n)]);
    RepParts(r, lo, width, compactMin, l.side, slot);
    ResizeKeepsIndex(r, lo, l.side, slot, l.pos, n, k);
    ReducedShaped(level, l.pos, k, l.side, l.price);
    OkIsOkBut(r, lo, width, compactMin, l.side, slot);
    OkButUpdate(r, lo, width, compactMin, l.side, slot, k, r.index);
    OkButRestored(WithLevel(r, l.side, slot, k), lo, width, compactMin, l.side, slot);
  }

  // ---- Whole-book facts ----------------------------------------------------------------------

  lemma {:induction false} QueueIsLive(levels: seq<FlatLevel>, side: Side, lo: Price)
    ensures LiveOn(side, Queue(levels, side, lo))
  {
    hide Between;
    var q := Queue(levels, side, lo);
    forall i | 0 <= i < |q| ensures q[i].side == side && q[i].quantity > 0 {
      var rank, pos := BetweenPrices(levels, side, lo, 0, |levels|, i);
    }
  }

  lemma {:induction false} CrossKeepsFresh(r: Rep, lo: Price, t: Taker, quantity: Quantity, now: Book)
    requires !Contains(BookOf(r, lo), t.id)
    requires now == WithSide(BookOf(r, lo), Opposite(t.side), MatchIn(BookOf(r, lo), t, quantity).makers)
    ensures !Contains(now, t.id)
  {
    hide Match, Between;
    QueueIsLive(LevelsOf(r, Opposite(t.side)), Opposite(t.side), lo);
    if Contains(now, t.id) {
      CrossAddsNoId(BookOf(r, lo), t, quantity, t.id);
    }
  }

  // ---- Queries -------------------------------------------------------------------------------

  lemma {:induction false} TotalConcat(a: seq<Order>, b: seq<Order>)
    ensures TotalQuantity(a + b) == TotalQuantity(a) + TotalQuantity(b)
    decreases |a|
  {
    if a == [] {
      assert a + b == b;
    } else {
      assert (a + b)[0] == a[0] && (a + b)[1..] == a[1..] + b;
      TotalConcat(a[1..], b);
    }
  }

  lemma {:induction false} NoneLive(side: Side, price: Price)
    ensures Live([], side, price) == []
  {
  }

  lemma {:induction false} LiveStep(orders: seq<FlatOrder>, i: nat, side: Side, price: Price)
    requires i < |orders|
    ensures Live(orders[i..], side, price) == Single(orders[i], side, price) + Live(orders[i + 1..], side, price)
  {
    assert orders[i..][1..] == orders[i + 1..];
  }

  lemma {:induction false} TotalEntry(orders: seq<FlatOrder>, i: nat, side: Side, price: Price)
    requires i < |orders|
    ensures TotalQuantity(Live(orders[i..], side, price))
            == orders[i].quantity + TotalQuantity(Live(orders[i + 1..], side, price))
  {
    hide Live;
    LiveStep(orders, i, side, price);
    TotalConcat(Single(orders[i], side, price), Live(orders[i + 1..], side, price));
    if orders[i].quantity > 0 {
      assert Single(orders[i], side, price)[1..] == [];
    }
  }

  lemma {:induction false} LivePrices(orders: seq<FlatOrder>, side: Side, price: Price)
    ensures forall i :: 0 <= i < |Live(orders, side, price)| ==> Live(orders, side, price)[i].price == price
  {
    forall i | 0 <= i < |Live(orders, side, price)| ensures Live(orders, side, price)[i].price == price {
      var pos := LiveComesFrom(orders, side, price, i);
    }
  }

  lemma {:induction false} BetweenOtherPrices(levels: seq<FlatLevel>, side: Side, lo: Price, i: nat, j: nat, rank: nat)
    requires i <= j <= |levels| && rank < |levels| && (rank < i || j <= rank)
    ensures var q := Between(levels, side, lo, i, j);
            forall n :: 0 <= n < |q| ==> q[n].price != lo + SlotAt(side, |levels|, rank)
  {
    hide Between, Live;
    var q := Between(levels, side, lo, i, j);
    forall n | 0 <= n < |q| ensures q[n].price != lo + SlotAt(side, |levels|, rank) {
      var r, p := BetweenPrices(levels, side, lo, i, j, n);
    }
  }

  lemma {:induction false} QuantityAtLevel(levels: seq<FlatLevel>, side: Side, lo: Price, slot: nat)
    requires slot < |levels|
    ensures QuantityAt(Queue(levels, side, lo), lo + slot) == TotalQuantity(LevelQueue(levels, side, lo, slot))
  {
    hide Between, Live, QuantityAt, TotalQuantity;
    var rank := RankOf(side, |levels|, slot);
    QueueAround(levels, side, lo, rank);
    var a, l := Between(levels, side, lo, 0, rank), LevelQueue(levels, side, lo, slot);
    var c := Between(levels, side, lo, rank + 1, |levels|);
    QuantityAtConcat(a + l, c, lo + slot);
    QuantityAtConcat(a, l, lo + slot);
    BetweenOtherPrices(levels, side, lo, 0, rank, rank);
    BetweenOtherPrices(levels, side, lo, rank + 1, |levels|, rank);
    QuantityAtUniform(a, lo + slot, false);
    QuantityAtUniform(c, lo + slot, false);
    LivePrices(levels[slot].orders, side, lo + slot);
    QuantityAtUniform(l, lo + slot, true);
  }

  lemma {:induction false} QuantityAtOutside(levels: seq<FlatLevel>, side: Side, lo: Price, price: Price)
    requires !(lo <= price < lo + |levels|)
    ensures QuantityAt(Queue(levels, side, lo), price) == 0
  {
    hide Between, Live;
    var q := Queue(levels, side, lo);
    forall n | 0 <= n < |q| ensures q[n].price != price {
      var r, p := BetweenPrices(levels, side, lo, 0, |levels|, n);
    }
    QuantityAtUniform(q, price, false);
  }

  lemma {:induction false} CollectStep(levels: seq<FlatLevel>, side: Side, lo: Price, compactMin: nat, from: nat,
                                       rank: nat)
    requires LevelsOk(levels, side, lo, compactMin) && FirstFrom(levels, side, from, rank)
    ensures var slot := SlotAt(side, |levels|, rank);
            Levels(Between(levels, side, lo, from, |levels|))
            == [LevelView(lo + slot, TotalQuantity(LevelQueue(levels, side, lo, slot)))]
               + Levels(Between(levels, side, lo, rank + 1, |levels|))
  {
    hide Live, Between, BookSpec.Levels, TotalQuantity, Tidy;
    var slot := SlotAt(side, |levels|, rank);
    var rest := Between(levels, side, lo, rank + 1, |levels|);
    QueueFromFirst(levels, side, lo, compactMin, from, rank);
    assert Shaped(levels[slot], side, lo + slot);
    LivePrices(levels[slot].orders, side, lo + slot);
    if rest != [] {
      BetweenOtherPrices(levels, side, lo, rank + 1, |levels|, rank);
    }
    LevelsOfRun(LevelQueue(levels, side, lo, slot), rest, lo + slot);
  }

  /** Nothing of the same id stands behind an indexed order either. */
  lemma {:induction false} BackHasNot(r: Rep, lo: Price, id: OrderId, rank: nat)
    requires IndexOk(r, lo) && id in r.index && Inside(r, lo, r.index[id])
    requires rank < |LevelsOf(r, r.index[id].side)|
    requires SlotAt(r.index[id].side, |LevelsOf(r, r.index[id].side)|, rank) == r.index[id].price - lo
    ensures !Has(BackOf(LevelsOf(r, r.index[id].side), r.index[id].side, lo, rank, r.index[id].pos + 1), id)
  {
    hide Between, Live;
    var l := r.index[id];
    var levels := LevelsOf(r, l.side);
    var orders := levels[l.price - lo].orders;
    var a := Live(orders[l.pos + 1..], l.side, l.price);
    var b := Between(levels, l.side, lo, rank + 1, |levels|);
    forall n | 0 <= n < |a| ensures a[n].id != id {
      var p := LiveComesFrom(orders[l.pos + 1..], l.side, l.price, n);
      var other := Locator(l.side, l.price, l.pos + 1 + p);
      assert Inside(r, lo, other) && EntryAt(r, lo, other) == orders[l.pos + 1 + p];
    }
    forall n | 0 <= n < |b| ensures b[n].id != id {
      QueuedIsIndexed(r, lo, l.side, rank + 1, |levels|, n);
    }
  }

  lemma {:induction false} QueueIdsDistinct(r: Rep, lo: Price, side: Side)
    requires IndexOk(r, lo)
    ensures DistinctIds(Queue(LevelsOf(r, side), side, lo))
  {
    hide Between, Live, IndexOk;
    var q := Queue(LevelsOf(r, side), side, lo);
    forall i, j | 0 <= i < j < |q| ensures q[i].id != q[j].id {
      HasAt(q, i);
      HasMeansIndexed(r, lo, side, q[i].id);
      OnePlace(r, lo, q[i].id, i, j);
    }
  }

  lemma {:induction false} OnePlace(r: Rep, lo: Price, id: OrderId, i: nat, j: nat)
    requires IndexOk(r, lo) && id in r.index
    requires i < j < |Queue(LevelsOf(r, r.index[id].side), r.index[id].side, lo)|
    requires Queue(LevelsOf(r, r.index[id].side), r.index[id].side, lo)[i].id == id
    ensures Queue(LevelsOf(r, r.index[id].side), r.index[id].side, lo)[j].id != id
  {
    hide Between, Live;
    var l := r.index[id];
    var levels := LevelsOf(r, l.side);
    assert Inside(r, lo, l) && EntryAt(r, lo, l).quantity > 0;
    var rank := RankOf(l.side, |levels|, l.price - lo);
    QueueAtPos(levels, l.side, lo, rank, l.pos);
    FrontHasNot(r, lo, id, rank);
    BackHasNot(r, lo, id, rank);
    var front := FrontOf(levels, l.side, lo, rank, l.pos);
    var back := BackOf(levels, l.side, lo, rank, l.pos + 1);
    OnlyMiddle(front, Single(EntryAt(r, lo, l), l.side, l.price)[0], back, id);
  }

  lemma {:induction false} OnlyMiddle(a: seq<Order>, m: Order, c: seq<Order>, id: OrderId)
    requires !Has(a, id) && !Has(c, id)
    ensures forall k :: 0 <= k < |a + [m] + c| && k != |a| ==> (a + [m] + c)[k].id != id
  {
    var q := a + [m] + c;
    forall k | 0 <= k < |q| && k != |a| ensures q[k].id != id {
      if k < |a| {
        assert q[k] == a[k];
      } else {
        assert q[k] == c[k - |a| - 1];
      }
    }
  }

  lemma {:induction false} IndexCounts(r: Rep, lo: Price)
    requires IndexOk(r, lo)
    ensures |r.index| == OrderCount(BookOf(r, lo))
  {
    hide IndexOk, Between, DistinctIds;
    var b := BookOf(r, lo);
    var buys := set id | id in r.index && r.index[id].side == Buy;
    var sells := set id | id in r.index && r.index[id].side == Sell;
    QueueIdsDistinct(r, lo, Buy);
    QueueIdsDistinct(r, lo, Sell);
    forall id ensures (id in buys <==> Has(b.bids, id)) && (id in sells <==> Has(b.asks, id)) {
      IndexSides(r, lo, id);
    }
    CountByIds(b.bids, buys);
    CountByIds(b.asks, sells);
    assert buys !! sells && buys + sells == r.index.Keys;
  }

  lemma {:induction false} IndexSides(r: Rep, lo: Price, id: OrderId)
    requires IndexOk(r, lo)
    ensures Has(Queue(r.bids, Buy, lo), id) <==> id in r.index && r.index[id].side == Buy
    ensures Has(Queue(r.asks, Sell, lo), id) <==> id in r.index && r.index[id].side == Sell
  {
    hide IndexOk, Between, Has;
    if Has(Queue(r.bids, Buy, lo), id) { HasMeansIndexed(r, lo, Buy, id); }
    if Has(Queue(r.asks, Sell, lo), id) { HasMeansIndexed(r, lo, Sell, id); }
    if id in r.index {
      var rank := IndexedOrder(r, lo, id, 0);
    }
  }

  class Store {
    const minPrice: Price
    const width: nat
    const compactMin: nat
    var bids: seq<FlatLevel>
    var asks: seq<FlatLevel>
    const bidBits: Occupancy
    const askBits: Occupancy
    var index: map<OrderId, Locator>

    ghost function State(): Rep
      reads this
    {
      Rep(bids, asks, index)
    }

    /** The book this store stands for. */
    ghost function Book(): Book
      reads this
    {
      BookOf(State(), minPrice)
    }

    ghost function Mode(): Storage {
      Contiguous(minPrice, minPrice + width - 1)
    }

    ghost predicate Framed() {
      && 0 < width && 2 <= compactMin
      && bidBits != askBits && bidBits.words != askBits.words
      && width <= WORD_BITS * bidBits.words.Length
      && width <= WORD_BITS * askBits.words.Length
    }

    ghost predicate BitsOk()
      reads this, bidBits.words, askBits.words
    {
      bidBits.Slots() == OccupiedSlots(bids) && askBits.Slots() == OccupiedSlots(asks)
    }

    ghost predicate Valid()
      reads this, bidBits.words, askBits.words
    {
      Framed() && BitsOk() && RepOk(State(), minPrice, width, compactMin)
    }

    /**
     * In every valid store, at every slot: the bit tells whether live orders are there, the cursor is the
     * first of them, and dead entries never outnumber both the live ones and the compaction threshold.
     */
    lemma LevelFacts(side: Side, slot: nat)
      requires Valid() && slot < width
      ensures slot < |bids| && slot < |asks|
      ensures var l, bits := if side.Buy? then bids[slot] else asks[slot], if side.Buy? then bidBits else askBits;
              && (slot in bits.Slots() <==> l.alive > 0)
              && l.alive <= |l.orders|
              && |l.orders| - l.alive <= (if l.alive < compactMin - 2 then compactMin - 2 else l.alive)
              && (l.alive > 0 ==> l.head == NextLive(l.orders, 0) < |l.orders|)
    {
      hide IndexOk, Live, Queue;
      var l := if side.Buy? then bids[slot] else asks[slot];
      assert Shaped(l, side, minPrice + slot) && Tidy(l, compactMin);
    }

    constructor (minPrice: Price, maxPrice: Price, compactMin: nat)
      requires minPrice <= maxPrice && 2 <= compactMin
      ensures Valid() && Book() == EMPTY_BOOK && Mode() == Contiguous(minPrice, maxPrice)
      ensures fresh(bidBits.words) && fresh(askBits.words)
    {
      var n: nat := maxPrice - minPrice + 1;
      this.minPrice := minPrice;
      this.compactMin := compactMin;
      width := n;
      bids := seq(n, _ => EMPTY_LEVEL);
      asks := seq(n, _ => EMPTY_LEVEL);
      bidBits := new Occupancy((n + WORD_BITS - 1) / WORD_BITS);
      askBits := new Occupancy((n + WORD_BITS - 1) / WORD_BITS);
      index := map[];
      new;
      EmptyRepOk(State(), minPrice, width, compactMin);
    }

    function Levels(side: Side): seq<FlatLevel>
      reads this
    {
      if side.Buy? then bids else asks
    }

    function Bits(side: Side): Occupancy {
      if side.Buy? then bidBits else askBits
    }

    method SetLevel(side: Side, slot: nat, level: FlatLevel)
      requires slot < |Levels(side)|
      modifies this`bids, this`asks
      ensures State() == WithLevel(old(State()), side, slot, level)
    {
      if side.Buy? {
        bids := bids[slot := level];
      } else {
        asks := asks[slot := level];
      }
    }

    // ---- Best-first search -------------------------------------------------------------------

    method BestSlot(side: Side) returns (r: Option<nat>, ghost rank: nat)
      requires Valid()
      ensures r.None? ==> NoneFrom(Levels(side), side, 0)
      ensures r.Some? ==> FirstFrom(Levels(side), side, 0, rank) && r.value == SlotAt(side, width, rank)
    {
      if side.Buy? {
        r := bidBits.NextDown(width - 1);
        assert BitsOk();
        DownIsFirst(bids, width - 1, r);
      } else {
        r := askBits.NextUp(0);
        assert BitsOk();
        UpIsFirst(asks, 0, r);
      }
      rank := if r.None? then 0 else if side.Buy? then width - 1 - r.value else r.value;
    }

    method NextWorse(side: Side, slot: nat) returns (r: Option<nat>, ghost rank: nat)
      requires Valid() && slot < width
      ensures var from := SlotAt(side, width, slot) + 1;
              && (r.None? ==> NoneFrom(Levels(side), side, from))
              && (r.Some? ==> FirstFrom(Levels(side), side, from, rank) && r.value == SlotAt(side, width, rank))
    {
      r, rank := None, 0;
      if side.Buy? {
        if slot != 0 {
          r := bidBits.NextDown(slot - 1);
          assert BitsOk();
          DownIsFirst(bids, slot - 1, r);
        }
      } else if slot + 1 < width {
        r := askBits.NextUp(slot + 1);
        assert BitsOk();
        UpIsFirst(asks, slot + 1, r);
      }
      rank := if r.None? then 0 else if side.Buy? then width - 1 - r.value else r.value;
    }

    // ---- Level clean-up ----------------------------------------------------------------------

    static method AdvanceHead(l: FlatLevel) returns (r: FlatLevel)
      requires l.head <= |l.orders|
      ensures r == l.(head := NextLive(l.orders, l.head))
    {
      r := l;
      while r.head < |r.orders| && r.orders[r.head].quantity == 0
        invariant r.head <= |l.orders| && r == l.(head := r.head)
        invariant NextLive(l.orders, r.head) == NextLive(l.orders, l.head)
      {
        r := r.(head := r.head + 1);
      }
    }

    /** Drop the tombstones of an exhausted level and its occupancy bit. */
    method ClearLevel(side: Side, slot: nat)
      requires Framed() && OkBut(State(), minPrice, width, compactMin, side, slot)
      requires Levels(side)[slot].alive == 0
      requires Bits(side).Slots() == OccupiedSlots(Levels(side)) + {slot}
      requires Bits(Opposite(side)).Slots() == OccupiedSlots(Levels(Opposite(side)))
      modifies this`bids, this`asks, Bits(side).words
      ensures Valid() && Book() == old(Book())
      ensures State() == WithLevel(old(State()), side, slot, EMPTY_LEVEL)
    {
      ClearedRep(State(), minPrice, width, compactMin, side, slot);
      SetLevel(side, slot, EMPTY_LEVEL);
      Bits(side).ClearBit(slot);
    }

    /** Move the locators of a level's live orders to where compaction puts them. */
    method RelocateLive(level: FlatLevel, ghost steps: seq<map<OrderId, Locator>>) returns (live: seq<FlatOrder>)
      requires MovesStepwise(steps, level) && index == steps[level.head]
      modifies this`index
      ensures live == Compacted(level.orders)
      ensures index == steps[|level.orders|]
    {
      live := [];
      var i := level.head;
      while i < |level.orders|
        invariant level.head <= i <= |level.orders|
        invariant live == Compacted(level.orders[..i])
        invariant index == steps[i]
      {
        var e := level.orders[i];
        ghost var was, n := index, |live|;
        if e.quantity > 0 {
          if e.id in index {
            index := index[e.id := index[e.id].(pos := |live|)];
          }
          live := live + [e];
        }
        assert index == Relocated(was, e, n);
        CompactedStep(level.orders, i);
        i := i + 1;
      }
      assert level.orders[..i] == level.orders;
    }

    /** Rewrite the queue with live orders only and move their locators along. */
    method CompactLevel(side: Side, slot: nat, ghost steps: seq<map<OrderId, Locator>>)
      requires slot < |Levels(side)| && MovesStepwise(steps, Levels(side)[slot])
      requires index == steps[Levels(side)[slot].head]
      modifies this`bids, this`asks, this`index
      ensures var level := old(Levels(side)[slot]);
              State() == WithLevel(old(State()), side, slot, level.(orders := Compacted(level.orders), head := 0))
                         .(index := steps[|level.orders|])
    {
      var live := RelocateLive(Levels(side)[slot], steps);
      SetLevel(side, slot, Levels(side)[slot].(orders := live, head := 0));
    }

    /** Compact a level whose dead entries outnumber the live ones, once it is long enough. */
    method MaybeCompact(side: Side, slot: nat)
      requires Framed() && OkBut(State(), minPrice, width, compactMin, side, slot)
      requires Levels(side)[slot].alive > 0
      modifies this`bids, this`asks, this`index
      ensures RepOk(State(), minPrice, width, compactMin) && Book() == old(Book())
      ensures OnlyLevel(old(State()), State(), side, slot)
      ensures Levels(side)[slot].alive == old(Levels(side)[slot].alive)
    {
      hide OkBut, RepOk, Shaped, IndexOk, Live, Repoint, Compacted, BookOf, MovesStepwise;
      OkButParts(State(), minPrice, width, compactMin, side, slot);
      var level := Levels(side)[slot];
      var dead := |level.orders| - level.alive;
      if |level.orders| >= compactMin && dead > level.alive {
        CompactedRep(State(), minPrice, width, compactMin, side, slot);
        ghost var steps := LevelMovesStepwise(State(), minPrice, side, slot);
        CompactLevel(side, slot, steps);
      } else {
        OkButRestored(State(), minPrice, width, compactMin, side, slot);
      }
    }

    // ---- Matching ----------------------------------------------------------------------------

    method FillFrontOrder(side: Side, slot: nat, takerId: OrderId, quantity: Quantity)
      returns (trade: Trade, left: Quantity)
      requires slot < |Levels(side)| && Levels(side)[slot].alive > 0
      requires Levels(side)[slot].head < |Levels(side)[slot].orders|
      modifies this`bids, this`asks, this`index
      ensures State() == Filled(old(State()), side, slot, quantity)
      ensures var l := old(Levels(side)[slot]);
              var traded := Min(quantity, l.orders[l.head].quantity);
              trade == Trade(takerId, l.orders[l.head].id, minPrice + slot, traded) && left == quantity - traded
    {
      var level := Levels(side)[slot];
      var maker := level.orders[level.head];
      var traded := Min(quantity, maker.quantity);
      trade := Trade(takerId, maker.id, minPrice + slot, traded);
      left := quantity - traded;
      level := level.(orders := level.orders[level.head := maker.(quantity := maker.quantity - traded)]);
      if maker.quantity == traded {
        index := index - {maker.id};
        level := level.(alive := level.alive - 1);
        level := AdvanceHead(level);
      }
      SetLevel(side, slot, level);
    }

    /** Hit makers from the front of the level until the taker or the level is used up. */
    method FillLevel(side: Side, slot: nat, takerId: OrderId, quantity: Quantity)
      returns (trades: seq<Trade>, left: Quantity)
      requires slot < |Levels(side)| && Shaped(Levels(side)[slot], side, minPrice + slot)
      modifies this`bids, this`asks, this`index
      ensures FillResult(State(), trades, left) == FillAll(old(State()), minPrice, side, slot, takerId, quantity)
    {
      hide Shaped, Live, Filled, FillAll, Prepend;
      PrependNothing(FillAll(State(), minPrice, side, slot, takerId, quantity));
      FillAllOnce(State(), minPrice, side, slot, takerId, quantity);
      trades, left := [], quantity;
      while left > 0 && Levels(side)[slot].alive > 0
        invariant slot < |Levels(side)| && Shaped(Levels(side)[slot], side, minPrice + slot)
        invariant FillAll(old(State()), minPrice, side, slot, takerId, quantity)
                  == Prepend(trades, FillAll(State(), minPrice, side, slot, takerId, left))
        invariant left == 0 || Levels(side)[slot].alive == 0 ==>
                    FillAll(State(), minPrice, side, slot, takerId, left) == FillResult(State(), [], left)
        decreases left
      {
        HeadIsLive(Levels(side)[slot], side, minPrice + slot);
        FilledShaped(State(), minPrice, side, slot, left);
        FillAllOnce(State(), minPrice, side, slot, takerId, left);
        var trade, less := FillFrontOrder(side, slot, takerId, left);
        PrependTwice(trades, [trade], FillAll(State(), minPrice, side, slot, takerId, less));
        trades, left := trades + [trade], less;
        FillAllOnce(State(), minPrice, side, slot, takerId, left);
      }
      PrependNothing(FillResult(State(), trades, left));
    }

    /** Hit the best level once, then clear it or keep it bounded. */
    method MatchLevel(side: Side, slot: nat, t: Taker, quantity: Quantity, ghost rank: nat)
      returns (trades: seq<Trade>, left: Quantity)
      requires Valid() && FirstFrom(Levels(side), side, 0, rank) && slot == SlotAt(side, width, rank)
      requires quantity > 0 && Crosses(t, minPrice + slot)
      modifies this`bids, this`asks, this`index, Bits(side).words
      ensures Valid() && left < quantity
      ensures Match(t, old(SideOf(Book(), side)), quantity) == After(trades, Match(t, SideOf(Book(), side), left))
      ensures SideOf(Book(), Opposite(side)) == old(SideOf(Book(), Opposite(side)))
    {
      hide Match, Shaped, Tidy, IndexOk, FillAll, BookOf, OccupiedSlots;
      ghost var r := State();
      OkIsOkBut(r, minPrice, width, compactMin, side, slot);
      FillAllIsMatch(r, minPrice, width, compactMin, side, rank, t, quantity);
      FillAllOk(r, minPrice, width, compactMin, side, slot, t.id, quantity);
      trades, left := FillLevel(side, slot, t.id, quantity);
      OccupiedAfter(r, State(), side, slot);
      if Levels(side)[slot].alive == 0 {
        ClearLevel(side, slot);
      } else {
        ghost var u := State();
        MaybeCompact(side, slot);
        OccupiedAfter(u, State(), side, slot);
        OccupiedHas(Levels(side), slot);
      }
    }

    method MatchAgainst(side: Side, t: Taker, quantity: Quantity) returns (trades: seq<Trade>, left: Quantity)
      requires Valid()
      modifies this`bids, this`asks, this`index, Bits(side).words
      ensures Valid()
      ensures MatchOutcome(trades, SideOf(Book(), side), left) == Match(t, old(SideOf(Book(), side)), quantity)
      ensures SideOf(Book(), Opposite(side)) == old(SideOf(Book(), Opposite(side)))
    {
      hide Match, RepOk, BitsOk, BookOf;
      trades, left := [], quantity;
      AfterTwice([], [], Match(t, SideOf(Book(), side), quantity));
      while left > 0
        invariant Valid()
        invariant Match(t, old(SideOf(Book(), side)), quantity) == After(trades, Match(t, SideOf(Book(), side), left))
        invariant SideOf(Book(), Opposite(side)) == old(SideOf(Book(), Opposite(side)))
        decreases left
      {
        var slot, rank := BestSlot(side);
        SideFront(State(), minPrice, width, compactMin, side, slot, rank);
        if slot.None? || !Crosses(t, minPrice + slot.value) {
          break;
        }
        var more, less := MatchLevel(side, slot.value, t, left, rank);
        AfterTwice(trades, more, Match(t, SideOf(Book(), side), less));
        trades, left := trades + more, less;
      }
      MatchStops(t, SideOf(Book(), side), left);
      AfterTwice(trades, [], MatchOutcome([], SideOf(Book(), side), left));
    }

    /** Rest a remainder at the tail of its level; refused when the price is outside the band. */
    method Rest(id: OrderId, side: Side, price: Price, quantity: Quantity) returns (ok: bool)
      requires Valid() && id !in index && quantity > 0
      modifies this`bids, this`asks, this`index, Bits(side).words
      ensures Valid() && ok == InBand(Mode(), price)
      ensures !ok ==> Book() == old(Book())
      ensures ok ==> Book() == WithSide(old(Book()), side,
                                        Insert(SideOf(old(Book()), side), Order(id, side, price, quantity)))
    {
      hide RepOk, BookOf, OccupiedSlots, Insert;
      if !(minPrice <= price <= minPrice + width - 1) {
        return false;
      }
      var slot := price - minPrice;
      RepWidth(State(), minPrice, width, compactMin);
      RestedOk(State(), minPrice, width, compactMin, side, slot, FlatOrder(id, quantity));
      var level := Levels(side)[slot];
      if level.alive == 0 {
        Bits(side).SetBit(slot);
      } else {
        OccupiedHas(Levels(side), slot);
      }
      index := index[id := Locator(side, price, |level.orders|)];
      SetLevel(side, slot, level.(orders := level.orders + [FlatOrder(id, quantity)], alive := level.alive + 1));
      return true;
    }

    /** Tombstone the order `was.index[id]` points at and tidy its level; the index entry is already gone. */
    method RemoveResting(loc: Locator, ghost id: OrderId, ghost was: Rep)
      requires Framed() && BitsOk() && RepOk(was, minPrice, width, compactMin)
      requires id in was.index && was.index[id] == loc && State() == was.(index := was.index - {id})
      modifies this`bids, this`asks, this`index, Bits(loc.side).words
      ensures Valid() && Book() == BookSpec.Cancel(BookOf(was, minPrice), id)
    {
      hide RepOk, BookOf, OccupiedSlots, Shaped, IndexOk, OkBut, BookSpec.Cancel, NextLive;
      RepWidth(was, minPrice, width, compactMin);
      LocatedOrder(was, minPrice, width, compactMin, id);
      var slot := loc.price - minPrice;
      var level := Levels(loc.side)[slot];
      HeadIsLive(level, loc.side, loc.price);
      ghost var l := level;
      level := level.(orders := level.orders[loc.pos := level.orders[loc.pos].(quantity := 0)],
                      alive := level.alive - 1);
      if level.alive == 0 {
        LastKilledShaped(l, loc.pos, loc.side, loc.price);
        TombstonedOk(was, minPrice, width, compactMin, id, level);
        SetLevel(loc.side, slot, level);
        OccupiedAfter(was, State(), loc.side, slot);
        ClearLevel(loc.side, slot);
      } else {
        if loc.pos == level.head {
          level := AdvanceHead(level);
        }
        KilledShaped(l, loc.pos, loc.side, loc.price);
        TombstonedOk(was, minPrice, width, compactMin, id, level);
        SetLevel(loc.side, slot, level);
        ghost var u := State();
        OccupiedAfter(was, u, loc.side, slot);
        OccupiedHas(Levels(loc.side), slot);
        MaybeCompact(loc.side, slot);
        OccupiedAfter(u, State(), loc.side, slot);
        OccupiedHas(Levels(loc.side), slot);
      }
    }

    method Cancel(id: OrderId) returns (ok: bool)
      requires Valid()
      modifies this`bids, this`asks, this`index, bidBits.words, askBits.words
      ensures Valid() && ok == Contains(old(Book()), id)
      ensures Book() == BookSpec.Cancel(old(Book()), id)
    {
      hide RepOk, BookOf, OccupiedSlots;
      ghost var was := State();
      RepIndex(was, minPrice, width, compactMin, id);
      if id !in index {
        CancelAbsent(Book(), id);
        return false;
      }
      var loc := index[id];
      index := index - {id};
      RemoveResting(loc, id, was);
      return true;
    }

    // ---- Dry runs ----------------------------------------------------------------------------

    static method SimulateLevel(level: FlatLevel, quantity: Quantity, ghost side: Side, ghost price: Price,
                                ghost t: Taker,
                                ghost rest: seq<Order>)
      returns (left: Quantity)
      requires Shaped(level, side, price) && Crosses(t, price)
      ensures Remainder(t, Live(level.orders, side, price) + rest, quantity) == Remainder(t, rest, left)
    {
      hide Remainder, Hits;
      left := quantity;
      var i := level.head;
      LiveFrom(level.orders, i, side, price);
      while left > 0 && i < |level.orders|
        invariant level.head <= i <= |level.orders|
        invariant Remainder(t, Live(level.orders, side, price) + rest, quantity)
                  == Remainder(t, Live(level.orders[i..], side, price) + rest, left)
      {
        ScanEntry(t, level.orders, i, side, price, rest, left);
        left := left - Min(left, level.orders[i].quantity);
        i := i + 1;
      }
      ScanLevelEnd(t, level.orders, i, side, price, rest, left);
    }

    /** `count_flat_level`: live entries a taker would hit on one level. */
    static method CountLevel(level: FlatLevel, quantity: Quantity, ghost side: Side, ghost price: Price, ghost t: Taker,
                             ghost rest: seq<Order>)
      returns (left: Quantity, count: nat)
      requires Shaped(level, side, price) && Crosses(t, price)
      ensures Hits(t, Live(level.orders, side, price) + rest, quantity) == count + Hits(t, rest, left)
    {
      hide Remainder, Hits;
      left, count := quantity, 0;
      var i := level.head;
      LiveFrom(level.orders, i, side, price);
      while left > 0 && i < |level.orders|
        invariant level.head <= i <= |level.orders|
        invariant Hits(t, Live(level.orders, side, price) + rest, quantity)
                  == count + Hits(t, Live(level.orders[i..], side, price) + rest, left)
      {
        ScanEntry(t, level.orders, i, side, price, rest, left);
        if level.orders[i].quantity > 0 {
          left := left - Min(left, level.orders[i].quantity);
          count := count + 1;
        }
        i := i + 1;
      }
      ScanLevelEnd(t, level.orders, i, side, price, rest, left);
    }

    /** The remainder a limit order would leave after crossing the current opposite side. */
    method SimulateRemainder(side: Side, limit: Price, quantity: Quantity, ghost id: OrderId) returns (left: Quantity)
      requires Valid()
      ensures left == MatchIn(Book(), LimitTaker(id, side, limit), quantity).remainder
    {
      hide Remainder, Hits, FirstFrom, NoneFrom, Shaped, RepOk, BitsOk, LevelsOk, Match, Between, Live;
      var opp := Opposite(side);
      ghost var t := LimitTaker(id, side, limit);
      ghost var levels := Levels(opp);
      left := quantity;
      RepSide(State(), minPrice, width, compactMin, opp);
      var slot, rank := BestSlot(opp);
      ghost var from := 0;
      while slot.Some? && left > 0 && Crosses(LimitTaker(0, side, limit), minPrice + slot.value)
        invariant AtRank(levels, opp, from, slot, rank)
        invariant Remainder(t, Queue(levels, opp, minPrice), quantity)
                  == Remainder(t, Between(levels, opp, minPrice, from, |levels|), left)
        decreases |levels| - from
      {
        RankIsInside(levels, opp, from, slot.value, rank);
        QueueFromFirst(levels, opp, minPrice, compactMin, from, rank);
        LevelIsShaped(levels, opp, minPrice, compactMin, slot.value);
        left := SimulateLevel(Levels(opp)[slot.value], left, opp, minPrice + slot.value, t,
                              Between(levels, opp, minPrice, rank + 1, |levels|));
        from := rank + 1;
        slot, rank := NextWorse(opp, slot.value);
      }
      WalkEnds(levels, opp, minPrice, compactMin, from, slot, rank, t, left);
      RemainderIs(t, Queue(levels, opp, minPrice), quantity);
    }

    /** `count_flat_matches`: how many trades a taker would make. */
    method FillCount(t: Taker, quantity: Quantity) returns (count: nat)
      requires Valid()
      ensures count == BookSpec.FillCount(Book(), t, quantity)
    {
      hide Remainder, Hits, FirstFrom, NoneFrom, Shaped, RepOk, BitsOk, LevelsOk, Match, Between, Live;
      var opp := Opposite(t.side);
      ghost var levels := Levels(opp);
      count := 0;
      var left := quantity;
      RepSide(State(), minPrice, width, compactMin, opp);
      var slot, rank := BestSlot(opp);
      ghost var from := 0;
      while slot.Some? && left > 0 && Crosses(t, minPrice + slot.value)
        invariant AtRank(levels, opp, from, slot, rank)
        invariant Hits(t, Queue(levels, opp, minPrice), quantity)
                  == count + Hits(t, Between(levels, opp, minPrice, from, |levels|), left)
        decreases |levels| - from
      {
        RankIsInside(levels, opp, from, slot.value, rank);
        QueueFromFirst(levels, opp, minPrice, compactMin, from, rank);
        LevelIsShaped(levels, opp, minPrice, compactMin, slot.value);
        var less, hit := CountLevel(Levels(opp)[slot.value], left, opp, minPrice + slot.value, t,
                                    Between(levels, opp, minPrice, rank + 1, |levels|));
        left, count := less, count + hit;
        from := rank + 1;
        slot, rank := NextWorse(opp, slot.value);
      }
      WalkEnds(levels, opp, minPrice, compactMin, from, slot, rank, t, left);
      HitsIs(t, Queue(levels, opp, minPrice), quantity);
    }

    // ---- Gates and operations ----------------------------------------------------------------

    method CanStoreLimit(side: Side, price: Price, quantity: Quantity, tif: TimeInForce, ghost id: OrderId)
      returns (ok: bool)
      requires Valid()
      ensures ok == BookSpec.CanStoreLimit(Mode(), Book(), id, side, price, quantity, tif)
    {
      hide Match, BookOf, RepOk;
      if tif.IOC? || minPrice <= price <= minPrice + width - 1 {
        return true;
      }
      var left := SimulateRemainder(side, price, quantity, id);
      return left == 0;
    }

    method CanApplyModify(id: OrderId, price: Price, quantity: Quantity) returns (ok: bool)
      requires Valid()
      ensures ok == BookSpec.CanApplyModify(Mode(), Book(), id, price, quantity)
    {
      hide Match, BookOf, RepOk, Find, Contains;
      RepIndex(State(), minPrice, width, compactMin, id);
      if id !in index || quantity == 0 {
        return true;
      }
      var loc := index[id];
      var order := Levels(loc.side)[loc.price - minPrice].orders[loc.pos];
      if price == loc.price && quantity <= order.quantity {
        return true;
      }
      if minPrice <= price <= minPrice + width - 1 {
        return true;
      }
      var left := SimulateRemainder(loc.side, price, quantity, id);
      return left == 0;
    }

    method AddLimit(id: OrderId, side: Side, price: Price, quantity: Quantity, tif: TimeInForce)
      returns (trades: seq<Trade>)
      requires Valid()
      modifies this`bids, this`asks, this`index, bidBits.words, askBits.words
      ensures Valid()
      ensures Applied(Book(), trades) == BookSpec.AddLimit(Mode(), old(Book()), id, side, price, quantity, tif)
    {
      hide Match, BookOf, RepOk, Contains, Insert;
      var ok := CanStoreLimit(side, price, quantity, tif, id);
      RepIndex(State(), minPrice, width, compactMin, id);
      if !ok || id in index {
        return [];
      }
      ghost var was := State();
      ghost var t := LimitTaker(id, side, price);
      var made, left := MatchAgainst(Opposite(side), LimitTaker(id, side, price), quantity);
      trades := made;
      if left > 0 && tif.GTC? {
        CrossKeepsFresh(was, minPrice, t, quantity, Book());
        RepIndex(State(), minPrice, width, compactMin, id);
        var rested := Rest(id, side, price, left);
      }
    }

    method AddMarket(id: OrderId, side: Side, quantity: Quantity) returns (trades: seq<Trade>)
      requires Valid()
      modifies this`bids, this`asks, this`index, bidBits.words, askBits.words
      ensures Valid()
      ensures Applied(Book(), trades) == BookSpec.AddMarket(old(Book()), id, side, quantity)
    {
      hide Match, BookOf, RepOk, Contains;
      RepIndex(State(), minPrice, width, compactMin, id);
      if id in index {
        return [];
      }
      var made, left := MatchAgainst(Opposite(side), Taker(id, side, true, 0), quantity);
      trades := made;
    }

    method Modify(id: OrderId, price: Price, quantity: Quantity) returns (trades: seq<Trade>)
      requires Valid()
      modifies this`bids, this`asks, this`index, bidBits.words, askBits.words
      ensures Valid()
      ensures Applied(Book(), trades) == BookSpec.Modify(Mode(), old(Book()), id, price, quantity)
    {
      hide Match, BookOf, RepOk, Contains, Find, BookSpec.CanApplyModify, BookSpec.AddLimit, BookSpec.Cancel;
      trades := [];
      RepIndex(State(), minPrice, width, compactMin, id);
      if id !in index {
        return;
      }
      var ok := CanApplyModify(id, price, quantity);
      if !ok {
        return;
      }
      var loc := index[id];
      var level := Levels(loc.side)[loc.price - minPrice];
      if quantity == 0 {
        var done := Cancel(id);
      } else if price == loc.price && quantity <= level.orders[loc.pos].quantity {
        ReduceInPlace(loc, quantity, id);
      } else {
        var done := Cancel(id);
        trades := AddLimit(id, loc.side, price, quantity, GTC);
      }
    }

    /** A same-price reduction writes the quantity and keeps time priority. */
    method ReduceInPlace(loc: Locator, quantity: Quantity, ghost id: OrderId)
      requires Valid() && id in index && index[id] == loc && Inside(State(), minPrice, loc)
      requires 0 < quantity <= EntryAt(State(), minPrice, loc).quantity
      modifies this`bids, this`asks
      ensures Valid()
      ensures Book() == WithSide(old(Book()), loc.side, Resize(SideOf(old(Book()), loc.side), id, quantity))
    {
      hide BookOf, RepOk, Resize, OccupiedSlots;
      var slot := loc.price - minPrice;
      var level := Levels(loc.side)[slot];
      ReducedOk(State(), minPrice, width, compactMin, id, quantity);
      SetLevel(loc.side, slot,
               level.(orders := level.orders[loc.pos := level.orders[loc.pos].(quantity := quantity)]));
    }

    // ---- Queries -----------------------------------------------------------------------------

    method ContainsOrder(id: OrderId) returns (found: bool)
      requires Valid()
      ensures found == Contains(Book(), id)
    {
      hide RepOk, BookOf, BitsOk, Contains;
      RepIndex(State(), minPrice, width, compactMin, id);
      found := id in index;
    }

    method BestPriceOf(side: Side) returns (p: Option<Price>)
      requires Valid()
      ensures p == BestPrice(SideOf(Book(), side))
    {
      hide RepOk, BookOf, BitsOk;
      var slot, rank := BestSlot(side);
      SideFront(State(), minPrice, width, compactMin, side, slot, rank);
      p := if slot.None? then None else Some(minPrice + slot.value);
    }

    static method LevelTotal(level: FlatLevel, ghost side: Side, ghost price: Price) returns (total: nat)
      requires Shaped(level, side, price)
      ensures total == TotalQuantity(Live(level.orders, side, price))
    {
      total := 0;
      var i := level.head;
      LiveFrom(level.orders, i, side, price);
      while i < |level.orders|
        invariant level.head <= i <= |level.orders|
        invariant TotalQuantity(Live(level.orders, side, price))
                  == total + TotalQuantity(Live(level.orders[i..], side, price))
      {
        assert level.orders[i..][1..] == level.orders[i + 1..];
        TotalEntry(level.orders, i, side, price);
        total := total + level.orders[i].quantity;
        i := i + 1;
      }
    }

    method QuantityAtPrice(side: Side, price: Price) returns (total: nat)
      requires Valid()
      ensures total == QuantityAt(SideOf(Book(), side), price)
    {
      hide RepOk, LevelsOk, Shaped, QuantityAt, TotalQuantity, Between, Live;
      RepSide(State(), minPrice, width, compactMin, side);
      if !(minPrice <= price <= minPrice + width - 1) {
        QuantityAtOutside(Levels(side), side, minPrice, price);
        return 0;
      }
      LevelIsShaped(Levels(side), side, minPrice, compactMin, price - minPrice);
      QuantityAtLevel(Levels(side), side, minPrice, price - minPrice);
      total := LevelTotal(Levels(side)[price - minPrice], side, price);
    }

    method LevelViews(side: Side) returns (views: seq<LevelView>)
      requires Valid()
      ensures views == BookSpec.Levels(SideOf(Book(), side))
    {
      hide RepOk, BitsOk, LevelsOk, FirstFrom, NoneFrom, Shaped, BookSpec.Levels, TotalQuantity, Between, Live;
      ghost var levels := Levels(side);
      views := [];
      RepSide(State(), minPrice, width, compactMin, side);
      var slot, rank := BestSlot(side);
      ghost var from := 0;
      while slot.Some?
        invariant AtRank(levels, side, from, slot, rank)
        invariant BookSpec.Levels(Queue(levels, side, minPrice))
                  == views + BookSpec.Levels(Between(levels, side, minPrice, from, |levels|))
        decreases |levels| - from
      {
        RankIsInside(levels, side, from, slot.value, rank);
        CollectStep(levels, side, minPrice, compactMin, from, rank);
        LevelIsShaped(levels, side, minPrice, compactMin, slot.value);
        var total := LevelTotal(Levels(side)[slot.value], side, minPrice + slot.value);
        views := views + [LevelView(minPrice + slot.value, total)];
        from := rank + 1;
        slot, rank := NextWorse(side, slot.value);
      }
      QueueFromNone(levels, side, minPrice, compactMin, from);
      LevelsFront([]);
    }

    static method AppendLive(level: FlatLevel, side: Side, price: Price) returns (out: seq<Order>)
      requires Shaped(level, side, price)
      ensures out == Live(level.orders, side, price)
    {
      hide Live;
      out := [];
      var i := level.head;
      LiveFrom(level.orders, i, side, price);
      while i < |level.orders|
        invariant level.head <= i <= |level.orders|
        invariant Live(level.orders, side, price) == out + Live(level.orders[i..], side, price)
      {
        LiveStep(level.orders, i, side, price);
        ghost var tail := Live(level.orders[i + 1..], side, price);
        assert out + (Single(level.orders[i], side, price) + tail) == out + Single(level.orders[i], side, price) + tail;
        if level.orders[i].quantity > 0 {
          out := out + [Order(level.orders[i].id, side, price, level.orders[i].quantity)];
        } else {
          assert out + [] == out;
        }
        i := i + 1;
      }
      NoneLive(side, price);
      assert level.orders[i..] == [] && out + [] == out;
    }

    method AppendOrders(side: Side) returns (out: seq<Order>)
      requires Valid()
      ensures out == SideOf(Book(), side)
    {
      hide RepOk, BitsOk, LevelsOk, FirstFrom, NoneFrom, Shaped, Between, Live;
      ghost var levels := Levels(side);
      out := [];
      RepSide(State(), minPrice, width, compactMin, side);
      var slot, rank := BestSlot(side);
      ghost var from := 0;
      while slot.Some?
        invariant AtRank(levels, side, from, slot, rank)
        invariant Queue(levels, side, minPrice) == out + Between(levels, side, minPrice, from, |levels|)
        decreases |levels| - from
      {
        RankIsInside(levels, side, from, slot.value, rank);
        QueueFromFirst(levels, side, minPrice, compactMin, from, rank);
        LevelIsShaped(levels, side, minPrice, compactMin, slot.value);
        var more := AppendLive(Levels(side)[slot.value], side, minPrice + slot.value);
        out := out + more;
        from := rank + 1;
        slot, rank := NextWorse(side, slot.value);
      }
      QueueFromNone(levels, side, minPrice, compactMin, from);
    }

    method RestingOrders() returns (out: seq<Order>)
      requires Valid()
      ensures out == BookSpec.RestingOrders(Book())
    {
      hide RepOk, BitsOk, BookOf;
      var bidOrders := AppendOrders(Buy);
      var askOrders := AppendOrders(Sell);
      out := bidOrders + askOrders;
    }

    method Count() returns (n: nat)
      requires Valid()
      ensures n == OrderCount(Book())
    {
      IndexCounts(State(), minPrice);
      n := |index|;
    }

    // ---- Whole runs --------------------------------------------------------------------------

    method Apply(c: BookCommand) returns (trades: seq<Trade>)
      requires Valid()
      modifies this`bids, this`asks, this`index, bidBits.words, askBits.words
      ensures Valid()
      ensures Applied(Book(), trades) == BookSpec.Apply(Mode(), old(Book()), c)
    {
      hide RepOk, BookOf, BitsOk, BookSpec.AddLimit, BookSpec.AddMarket, BookSpec.Modify, BookSpec.Cancel;
      match c
      case LimitCmd(id, side, price, quantity, tif) => trades := AddLimit(id, side, price, quantity, tif);
      case MarketCmd(id, side, quantity) => trades := AddMarket(id, side, quantity);
      case CancelCmd(id) =>
        var ok := Cancel(id);
        trades := [];
      case ModifyCmd(id, price, quantity) => trades := Modify(id, price, quantity);
    }

    /** Any run of commands on the store is the same run on the reference book. */
    method RunAll(cs: seq<BookCommand>) returns (trades: seq<seq<Trade>>)
      requires Valid()
      modifies this`bids, this`asks, this`index, bidBits.words, askBits.words
      ensures Valid() && (Book(), trades) == BookSpec.Run(Mode(), old(Book()), cs)
    {
      hide RepOk, BookOf, BitsOk, BookSpec.Apply, BookSpec.Run;
      trades := [];
      var i := 0;
      assert cs[0..] == cs;
      assert [] + BookSpec.Run(Mode(), Book(), cs).1 == BookSpec.Run(Mode(), Book(), cs).1;
      while i < |cs|
        invariant 0 <= i <= |cs| && Valid()
        invariant var rest := BookSpec.Run(Mode(), Book(), cs[i..]);
                  BookSpec.Run(Mode(), old(Book()), cs) == (rest.0, trades + rest.1)
      {
        RunUnrolls(Mode(), Book(), cs, i);
        var made := Apply(cs[i]);
        ghost var rest := BookSpec.Run(Mode(), Book(), cs[i + 1..]).1;
        assert trades + ([made] + rest) == trades + [made] + rest;
        trades := trades + [made];
        i := i + 1;
      }
      RunUnrolls(Mode(), Book(), cs, i);
      assert trades + [] == trades;
    }
  }
}
