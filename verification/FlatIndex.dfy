/** How each in-place update of a contiguous store keeps its index, and what it does to the book. */
module FlatIndex {
  import opened Types
  import opened BookSpec
  import opened FlatLevels

  // ---- Updates that keep the index right -----------------------------------------------------

  function LevelAt(r: Rep, side: Side, slot: nat): FlatLevel
    requires slot < |LevelsOf(r, side)|
  {
    LevelsOf(r, side)[slot]
  }

  /** After `WithLevel`, entries elsewhere are the same entries. */
  lemma {:induction false} EntryElsewhere(r: Rep, lo: Price, side: Side, slot: nat, level: FlatLevel, l: Locator)
    requires slot < |LevelsOf(r, side)| && !(l.side == side && l.price == lo + slot)
    ensures var u := WithLevel(r, side, slot, level);
            Inside(u, lo, l) == Inside(r, lo, l) && (Inside(r, lo, l) ==> EntryAt(u, lo, l) == EntryAt(r, lo, l))
  {
  }

  lemma {:induction false} KillKeepsIndex(r: Rep, lo: Price, side: Side, slot: nat, pos: nat, level: FlatLevel)
    requires IndexOk(r, lo) && slot < |LevelsOf(r, side)| && pos < |LevelAt(r, side, slot).orders|
    requires var e := LevelAt(r, side, slot).orders[pos];
             e.quantity > 0 && level.orders == LevelAt(r, side, slot).orders[pos := e.(quantity := 0)]
    ensures var e := LevelAt(r, side, slot).orders[pos];
            e.id in r.index && r.index[e.id] == Locator(side, lo + slot, pos)
            && IndexOk(WithLevel(r, side, slot, level).(index := r.index - {e.id}), lo)
  {
    hide Live, Inside, EntryAt, WithLevel;
    var e := LevelAt(r, side, slot).orders[pos];
    var k, u := WithLevel(r, side, slot, level), WithLevel(r, side, slot, level).(index := r.index - {e.id});
    KilledWasIndexed(r, lo, side, slot, pos);
    forall l: Locator | Inside(u, lo, l) && EntryAt(u, lo, l).quantity > 0
      ensures EntryAt(u, lo, l).id in u.index && u.index[EntryAt(u, lo, l).id] == l
    {
      IndexAside(k, u.index, lo, l);
      KillLocated(r, lo, side, slot, pos, level, l);
    }
    forall id | id in u.index
      ensures Inside(u, lo, u.index[id]) && EntryAt(u, lo, u.index[id]).id == id
              && EntryAt(u, lo, u.index[id]).quantity > 0
    {
      IndexAside(k, u.index, lo, u.index[id]);
      KillIndexed(r, lo, side, slot, pos, level, id);
    }
  }

  /** Where an entry is does not depend on the index. */
  lemma {:induction false} IndexAside(r: Rep, index: map<OrderId, Locator>, lo: Price, l: Locator)
    ensures var u := r.(index := index);
            Inside(u, lo, l) == Inside(r, lo, l) && (Inside(r, lo, l) ==> EntryAt(u, lo, l) == EntryAt(r, lo, l))
  {
  }

  lemma {:induction false} KilledWasIndexed(r: Rep, lo: Price, side: Side, slot: nat, pos: nat)
    requires IndexOk(r, lo) && slot < |LevelsOf(r, side)| && pos < |LevelAt(r, side, slot).orders|
    requires LevelAt(r, side, slot).orders[pos].quantity > 0
    ensures var e := LevelAt(r, side, slot).orders[pos];
            e.id in r.index && r.index[e.id] == Locator(side, lo + slot, pos)
  {
    hide Live;
    var here := Locator(side, lo + slot, pos);
    assert Inside(r, lo, here) && EntryAt(r, lo, here) == LevelAt(r, side, slot).orders[pos];
  }

  lemma {:induction false} KillLocated(r: Rep, lo: Price, side: Side, slot: nat, pos: nat, level: FlatLevel, l: Locator)
    requires IndexOk(r, lo) && slot < |LevelsOf(r, side)| && pos < |LevelAt(r, side, slot).orders|
    requires var e := LevelAt(r, side, slot).orders[pos];
             e.quantity > 0 && level.orders == LevelAt(r, side, slot).orders[pos := e.(quantity := 0)]
    requires var u := WithLevel(r, side, slot, level); Inside(u, lo, l) && EntryAt(u, lo, l).quantity > 0
    ensures var v := EntryAt(WithLevel(r, side, slot, level), lo, l);
            v.id != LevelAt(r, side, slot).orders[pos].id && v.id in r.index && r.index[v.id] == l
  {
    hide Live;
    var here := Locator(side, lo + slot, pos);
    KilledWasIndexed(r, lo, side, slot, pos);
    assert l != here;
    assert Inside(r, lo, l) && EntryAt(WithLevel(r, side, slot, level), lo, l) == EntryAt(r, lo, l);
  }

  lemma {:induction false} KillIndexed(r: Rep, lo: Price, side: Side, slot: nat, pos: nat, level: FlatLevel,
                                       id: OrderId)
    requires IndexOk(r, lo) && slot < |LevelsOf(r, side)| && pos < |LevelAt(r, side, slot).orders|
    requires var e := LevelAt(r, side, slot).orders[pos];
             e.quantity > 0 && level.orders == LevelAt(r, side, slot).orders[pos := e.(quantity := 0)] && id != e.id
    requires id in r.index
    ensures var u, l := WithLevel(r, side, slot, level), r.index[id];
            Inside(u, lo, l) && EntryAt(u, lo, l).id == id && EntryAt(u, lo, l).quantity > 0
  {
    hide Live;
    var here, l := Locator(side, lo + slot, pos), r.index[id];
    assert Inside(r, lo, l) && EntryAt(r, lo, l).id == id && EntryAt(r, lo, l).quantity > 0;
    assert l != here;
  }

  lemma {:induction false} ResizeKeepsIndex(r: Rep, lo: Price, side: Side, slot: nat, pos: nat, n: Quantity,
                                            level: FlatLevel)
    requires IndexOk(r, lo) && slot < |LevelsOf(r, side)| && pos < |LevelAt(r, side, slot).orders| && n > 0
    requires var e := LevelAt(r, side, slot).orders[pos];
             e.quantity > 0 && level.orders == LevelAt(r, side, slot).orders[pos := e.(quantity := n)]
    ensures IndexOk(WithLevel(r, side, slot, level), lo)
  {
    var u := WithLevel(r, side, slot, level);
    forall l: Locator
      ensures Inside(u, lo, l) == Inside(r, lo, l)
      ensures Inside(r, lo, l) ==> EntryAt(u, lo, l).id == EntryAt(r, lo, l).id
                                   && (EntryAt(u, lo, l).quantity > 0 <==> EntryAt(r, lo, l).quantity > 0)
    {
      if !(l.side == side && l.price == lo + slot) { EntryElsewhere(r, lo, side, slot, level, l); }
    }
  }

  lemma {:induction false} AppendKeepsIndex(r: Rep, lo: Price, side: Side, slot: nat, e: FlatOrder, level: FlatLevel)
    requires IndexOk(r, lo) && slot < |LevelsOf(r, side)| && e.quantity > 0 && e.id !in r.index
    requires level.orders == LevelAt(r, side, slot).orders + [e]
    ensures IndexOk(WithLevel(r, side, slot, level).(
                      index := r.index[e.id := Locator(side, lo + slot, |LevelAt(r, side, slot).orders|)]), lo)
  {
    var here := Locator(side, lo + slot, |LevelAt(r, side, slot).orders|);
    var u := WithLevel(r, side, slot, level).(index := r.index[e.id := here]);
    assert Inside(u, lo, here) && EntryAt(u, lo, here) == e;
    forall l: Locator | l != here
      ensures Inside(u, lo, l) == Inside(r, lo, l)
      ensures Inside(r, lo, l) ==> EntryAt(u, lo, l) == EntryAt(r, lo, l)
    {
      if !(l.side == side && l.price == lo + slot) { EntryElsewhere(r, lo, side, slot, level, l); }
    }
    AppendedIndexOk(r, u, lo, e, here);
  }

  lemma {:induction false} AppendedIndexOk(r: Rep, u: Rep, lo: Price, e: FlatOrder, here: Locator)
    requires IndexOk(r, lo) && e.quantity > 0 && e.id !in r.index && u.index == r.index[e.id := here]
    requires !Inside(r, lo, here) && Inside(u, lo, here) && EntryAt(u, lo, here) == e
    requires forall l: Locator :: l != here ==> Inside(u, lo, l) == Inside(r, lo, l)
    requires forall l: Locator :: l != here && Inside(r, lo, l) ==> EntryAt(u, lo, l) == EntryAt(r, lo, l)
    ensures IndexOk(u, lo)
  {
  }

  /** Dropping the tombstones of a level with nothing live is invisible to the index. */
  lemma {:induction false} ClearKeepsIndex(r: Rep, lo: Price, side: Side, slot: nat)
    requires IndexOk(r, lo) && slot < |LevelsOf(r, side)|
    requires forall i :: 0 <= i < |LevelAt(r, side, slot).orders| ==> LevelAt(r, side, slot).orders[i].quantity == 0
    ensures IndexOk(WithLevel(r, side, slot, EMPTY_LEVEL), lo)
  {
    var u := WithLevel(r, side, slot, EMPTY_LEVEL);
    forall l: Locator
      ensures Inside(u, lo, l) ==> Inside(r, lo, l)
      ensures Inside(r, lo, l) && EntryAt(r, lo, l).quantity > 0 ==> Inside(u, lo, l)
      ensures Inside(u, lo, l) ==> EntryAt(u, lo, l) == EntryAt(r, lo, l)
    {
      if l.side == side && l.price == lo + slot {
        assert LevelsOf(u, l.side)[slot] == EMPTY_LEVEL;
        assert l.pos < |LevelAt(r, side, slot).orders| ==> LevelAt(r, side, slot).orders[l.pos].quantity == 0;
      } else {
        EntryElsewhere(r, lo, side, slot, EMPTY_LEVEL, l);
      }
    }
  }

  // ---- Compaction ----------------------------------------------------------------------------

  /** The live entries only, in order. */
  function Compacted(orders: seq<FlatOrder>): seq<FlatOrder> {
    if orders == [] then []
    else
      var n := |orders| - 1;
      Compacted(orders[..n]) + (if orders[n].quantity > 0 then [orders[n]] else [])
  }

  /** Where position `pos` ends up. */
  function Rank(orders: seq<FlatOrder>, pos: nat): nat
    requires pos <= |orders|
  {
    |Compacted(orders[..pos])|
  }

  /** Locators of this level below position `n` already moved to their compacted position. */
  function Repoint(index: map<OrderId, Locator>, side: Side, price: Price, orders: seq<FlatOrder>, n: nat)
    : map<OrderId, Locator>
    requires n <= |orders|
  {
    map id | id in index ::
      if index[id].side == side && index[id].price == price && index[id].pos < n
      then index[id].(pos := Rank(orders, index[id].pos)) else index[id]
  }

  lemma {:induction false} CompactedIsLive(orders: seq<FlatOrder>, side: Side, price: Price)
    ensures Live(Compacted(orders), side, price) == Live(orders, side, price)
    ensures |Compacted(orders)| == |Live(orders, side, price)|
    ensures forall i :: 0 <= i < |Compacted(orders)| ==> Compacted(orders)[i].quantity > 0
    decreases |orders|
  {
    if orders != [] {
      var n := |orders| - 1;
      CompactedIsLive(orders[..n], side, price);
      LiveAt(orders, n, side, price);
      assert orders[n + 1..] == [];
      var tail := if orders[n].quantity > 0 then [orders[n]] else [];
      LiveConcat(Compacted(orders[..n]), tail, side, price);
      if orders[n].quantity > 0 {
        assert [orders[n]][1..] == [];
      }
    }
  }

  lemma {:induction false} CompactedStep(orders: seq<FlatOrder>, i: nat)
    requires i < |orders|
    ensures Compacted(orders[..i + 1])
            == Compacted(orders[..i]) + (if orders[i].quantity > 0 then [orders[i]] else [])
  {
    assert orders[..i + 1][..i] == orders[..i];
  }

  lemma {:induction false} DeadPrefixCompacts(orders: seq<FlatOrder>, i: nat)
    requires i <= |orders| && forall j :: 0 <= j < i ==> orders[j].quantity == 0
    ensures Compacted(orders[..i]) == []
    decreases i
  {
    if i > 0 {
      DeadPrefixCompacts(orders, i - 1);
      CompactedStep(orders, i - 1);
    }
  }

  /** Compaction keeps earlier entries where they went. */
  lemma {:induction false} RankIsPosition(orders: seq<FlatOrder>, pos: nat, n: nat)
    requires pos < n <= |orders| && orders[pos].quantity > 0
    ensures Rank(orders, pos) < |Compacted(orders[..n])| && Compacted(orders[..n])[Rank(orders, pos)] == orders[pos]
    decreases n
  {
    CompactedStep(orders, n - 1);
    if pos < n - 1 {
      RankIsPosition(orders, pos, n - 1);
    }
  }

  lemma {:induction false} CompactedComesFrom(orders: seq<FlatOrder>, n: nat, i: nat) returns (pos: nat)
    requires n <= |orders| && i < |Compacted(orders[..n])|
    ensures pos < n && orders[pos].quantity > 0 && Rank(orders, pos) == i && Compacted(orders[..n])[i] == orders[pos]
    decreases n
  {
    CompactedStep(orders, n - 1);
    if i < |Compacted(orders[..n - 1])| {
      pos := CompactedComesFrom(orders, n - 1, i);
    } else {
      pos := n - 1;
    }
  }

  /** The index after a live entry `e` moved to position `n`. */
  function Relocated(index: map<OrderId, Locator>, e: FlatOrder, n: nat): map<OrderId, Locator> {
    if e.quantity > 0 && e.id in index then index[e.id := index[e.id].(pos := n)] else index
  }

  /** One step of the compaction loop. */
  lemma {:induction false} RepointStep(r: Rep, lo: Price, side: Side, slot: nat, i: nat)
    requires IndexOk(r, lo) && slot < |LevelsOf(r, side)| && i < |LevelAt(r, side, slot).orders|
    ensures var orders := LevelAt(r, side, slot).orders;
            Repoint(r.index, side, lo + slot, orders, i + 1)
            == Relocated(Repoint(r.index, side, lo + slot, orders, i), orders[i], Rank(orders, i))
  {
    hide Compacted, Live;
    var orders := LevelAt(r, side, slot).orders;
    var e := orders[i];
    var here := Locator(side, lo + slot, i);
    assert Inside(r, lo, here) && EntryAt(r, lo, here) == e;
    forall id | id in r.index && r.index[id] == here ensures e.quantity > 0 && id == e.id {}
  }

  lemma {:induction false} RepointNone(r: Rep, lo: Price, side: Side, slot: nat, head: nat)
    requires IndexOk(r, lo) && slot < |LevelsOf(r, side)| && head <= |LevelAt(r, side, slot).orders|
    requires forall j :: 0 <= j < head ==> LevelAt(r, side, slot).orders[j].quantity == 0
    ensures Repoint(r.index, side, lo + slot, LevelAt(r, side, slot).orders, head) == r.index
  {
    forall id | id in r.index
      ensures !(r.index[id].side == side && r.index[id].price == lo + slot && r.index[id].pos < head)
    {
      assert Inside(r, lo, r.index[id]) && EntryAt(r, lo, r.index[id]).quantity > 0;
    }
  }

  /** `steps[i]` is the index once the entries below `i` have moved. */
  ghost predicate MovesStepwise(steps: seq<map<OrderId, Locator>>, level: FlatLevel) {
    && level.head <= |level.orders| && |steps| == |level.orders| + 1
    && Compacted(level.orders[..level.head]) == []
    && forall i :: level.head <= i < |level.orders| ==>
         steps[i + 1] == Relocated(steps[i], level.orders[i], Rank(level.orders, i))
  }

  lemma {:induction false} LevelMovesStepwise(r: Rep, lo: Price, side: Side, slot: nat)
    returns (steps: seq<map<OrderId, Locator>>)
    requires IndexOk(r, lo) && slot < |LevelsOf(r, side)|
    requires Shaped(LevelAt(r, side, slot), side, lo + slot)
    ensures var level := LevelAt(r, side, slot);
            && MovesStepwise(steps, level)
            && steps[level.head] == r.index
            && steps[|level.orders|] == Repoint(r.index, side, lo + slot, level.orders, |level.orders|)
  {
    hide Compacted, Repoint, Live;
    var level := LevelAt(r, side, slot);
    steps := seq(|level.orders| + 1, i requires 0 <= i <= |level.orders| =>
      Repoint(r.index, side, lo + slot, level.orders, i));
    RepointNone(r, lo, side, slot, level.head);
    DeadPrefixCompacts(level.orders, level.head);
    forall i | level.head <= i < |level.orders|
      ensures steps[i + 1] == Relocated(steps[i], level.orders[i], Rank(level.orders, i))
    {
      RepointStep(r, lo, side, slot, i);
    }
  }

  /** The whole compaction of one level. */
  function CompactTo(r: Rep, lo: Price, side: Side, slot: nat): Rep
    requires slot < |LevelsOf(r, side)|
  {
    var level := LevelAt(r, side, slot);
    WithLevel(r, side, slot, level.(orders := Compacted(level.orders), head := 0))
    .(index := Repoint(r.index, side, lo + slot, level.orders, |level.orders|))
  }

  lemma {:induction false} RepointKeys(index: map<OrderId, Locator>, side: Side, price: Price, orders: seq<FlatOrder>,
                                       n: nat)
    requires n <= |orders|
    ensures Repoint(index, side, price, orders, n).Keys == index.Keys
  {
  }

  lemma {:induction false} CompactKeepsIndex(r: Rep, lo: Price, side: Side, slot: nat, level: FlatLevel)
    requires IndexOk(r, lo) && slot < |LevelsOf(r, side)|
    requires level.orders == Compacted(LevelAt(r, side, slot).orders)
    ensures var orders := LevelAt(r, side, slot).orders;
            IndexOk(WithLevel(r, side, slot, level).(
                      index := Repoint(r.index, side, lo + slot, orders, |orders|)), lo)
  {
    hide Compacted, Live, Inside, EntryAt, WithLevel, Repoint;
    var orders := LevelAt(r, side, slot).orders;
    var k, index := WithLevel(r, side, slot, level), Repoint(r.index, side, lo + slot, orders, |orders|);
    var u := k.(index := index);
    RepointKeys(r.index, side, lo + slot, orders, |orders|);
    forall l: Locator | Inside(u, lo, l) && EntryAt(u, lo, l).quantity > 0
      ensures EntryAt(u, lo, l).id in u.index && u.index[EntryAt(u, lo, l).id] == l
    {
      IndexAside(k, index, lo, l);
      CompactLocated(r, lo, side, slot, level, l);
    }
    forall id | id in u.index
      ensures Inside(u, lo, u.index[id]) && EntryAt(u, lo, u.index[id]).id == id
              && EntryAt(u, lo, u.index[id]).quantity > 0
    {
      IndexAside(k, index, lo, u.index[id]);
      CompactIndexed(r, lo, side, slot, level, id);
    }
  }

  lemma {:induction false} CompactIndexed(r: Rep, lo: Price, side: Side, slot: nat, level: FlatLevel, id: OrderId)
    requires IndexOk(r, lo) && slot < |LevelsOf(r, side)| && id in r.index
    requires level.orders == Compacted(LevelAt(r, side, slot).orders)
    ensures var orders := LevelAt(r, side, slot).orders;
            var u := WithLevel(r, side, slot, level);
            var l := Repoint(r.index, side, lo + slot, orders, |orders|)[id];
            Inside(u, lo, l) && EntryAt(u, lo, l).id == id && EntryAt(u, lo, l).quantity > 0
  {
    hide Compacted, Live;
    var orders := LevelAt(r, side, slot).orders;
    assert orders[..|orders|] == orders;
    var l := r.index[id];
    assert Inside(r, lo, l) && EntryAt(r, lo, l).id == id && EntryAt(r, lo, l).quantity > 0;
    if l.side == side && l.price == lo + slot {
      RankIsPosition(orders, l.pos, |orders|);
    } else {
      EntryElsewhere(r, lo, side, slot, level, l);
    }
  }

  lemma {:induction false} CompactLocated(r: Rep, lo: Price, side: Side, slot: nat, level: FlatLevel, l: Locator)
    requires IndexOk(r, lo) && slot < |LevelsOf(r, side)|
    requires level.orders == Compacted(LevelAt(r, side, slot).orders)
    requires var u := WithLevel(r, side, slot, level); Inside(u, lo, l) && EntryAt(u, lo, l).quantity > 0
    ensures var orders := LevelAt(r, side, slot).orders;
            var u := WithLevel(r, side, slot, level);
            var index := Repoint(r.index, side, lo + slot, orders, |orders|);
            EntryAt(u, lo, l).id in index && index[EntryAt(u, lo, l).id] == l
  {
    var orders := LevelAt(r, side, slot).orders;
    assert orders[..|orders|] == orders;
    if l.side == side && l.price == lo + slot {
      var pos := CompactedComesFrom(orders, |orders|, l.pos);
      var was := Locator(side, lo + slot, pos);
      assert Inside(r, lo, was) && EntryAt(r, lo, was) == orders[pos];
    } else {
      assert Inside(r, lo, l) && EntryAt(r, lo, l).quantity > 0;
    }
  }

  // ---- The index and the book ----------------------------------------------------------------

  lemma {:induction false} RankOf(side: Side, width: nat, slot: nat) returns (rank: nat)
    requires slot < width
    ensures rank < width && SlotAt(side, width, rank) == slot
  {
    rank := if side.Buy? then width - 1 - slot else slot;
  }

  /** Whatever is on a side is in the index, at that side. */
  lemma {:induction false} QueuedIsIndexed(r: Rep, lo: Price, side: Side, i: nat, j: nat, n: nat)
    requires IndexOk(r, lo) && i <= j <= |LevelsOf(r, side)|
    requires n < |Between(LevelsOf(r, side), side, lo, i, j)|
    ensures var o := Between(LevelsOf(r, side), side, lo, i, j)[n];
            && o.id in r.index && r.index[o.id].side == side && r.index[o.id].price == o.price
            && exists rank :: i <= rank < j && o.price == lo + SlotAt(side, |LevelsOf(r, side)|, rank)
  {
    var rank, pos := BetweenPrices(LevelsOf(r, side), side, lo, i, j, n);
    var l := Locator(side, lo + SlotAt(side, |LevelsOf(r, side)|, rank), pos);
    assert Inside(r, lo, l);
  }

  lemma {:induction false} HasMeansIndexed(r: Rep, lo: Price, side: Side, id: OrderId)
    requires IndexOk(r, lo) && Has(Queue(LevelsOf(r, side), side, lo), id)
    ensures id in r.index && r.index[id].side == side
  {
    var q := Queue(LevelsOf(r, side), side, lo);
    var n :| 0 <= n < |q| && q[n].id == id;
    QueuedIsIndexed(r, lo, side, 0, |LevelsOf(r, side)|, n);
  }

  /** Everything ahead of position `pos` of the level at `rank`. */
  function FrontOf(levels: seq<FlatLevel>, side: Side, lo: Price, rank: nat, pos: nat): seq<Order>
    requires rank < |levels| && pos <= |levels[SlotAt(side, |levels|, rank)].orders|
  {
    var slot := SlotAt(side, |levels|, rank);
    Between(levels, side, lo, 0, rank) + Live(levels[slot].orders[..pos], side, lo + slot)
  }

  /** Everything from position `pos` of the level at `rank` on. */
  function BackOf(levels: seq<FlatLevel>, side: Side, lo: Price, rank: nat, pos: nat): seq<Order>
    requires rank < |levels| && pos <= |levels[SlotAt(side, |levels|, rank)].orders|
  {
    var slot := SlotAt(side, |levels|, rank);
    Live(levels[slot].orders[pos..], side, lo + slot) + Between(levels, side, lo, rank + 1, |levels|)
  }

  function Single(e: FlatOrder, side: Side, price: Price): seq<Order> {
    if e.quantity > 0 then [Order(e.id, side, price, e.quantity)] else []
  }

  lemma {:induction false} Regroup<T>(a: seq<T>, l: seq<T>, m: seq<T>, n: seq<T>, c: seq<T>)
    ensures a + (l + m + n) + c == (a + l) + m + (n + c)
  {
  }

  lemma {:induction false} QueueAtPos(levels: seq<FlatLevel>, side: Side, lo: Price, rank: nat, pos: nat)
    requires rank < |levels| && pos < |levels[SlotAt(side, |levels|, rank)].orders|
    ensures var slot := SlotAt(side, |levels|, rank);
            Queue(levels, side, lo) == FrontOf(levels, side, lo, rank, pos)
                                       + Single(levels[slot].orders[pos], side, lo + slot)
                                       + BackOf(levels, side, lo, rank, pos + 1)
  {
    hide Live, Between;
    var slot := SlotAt(side, |levels|, rank);
    var orders := levels[slot].orders;
    QueueAround(levels, side, lo, rank);
    LiveAt(orders, pos, side, lo + slot);
    Regroup(Between(levels, side, lo, 0, rank), Live(orders[..pos], side, lo + slot),
            Single(orders[pos], side, lo + slot), Live(orders[pos + 1..], side, lo + slot),
            Between(levels, side, lo, rank + 1, |levels|));
  }

  lemma {:induction false} QueuePosUpdate(levels: seq<FlatLevel>, side: Side, lo: Price, rank: nat, pos: nat,
                                          e: FlatOrder,
                                          level: FlatLevel)
    requires rank < |levels| && pos < |levels[SlotAt(side, |levels|, rank)].orders|
    requires level.orders == levels[SlotAt(side, |levels|, rank)].orders[pos := e]
    ensures var slot := SlotAt(side, |levels|, rank);
            Queue(levels[slot := level], side, lo) == FrontOf(levels, side, lo, rank, pos)
                                                      + Single(e, side, lo + slot)
                                                      + BackOf(levels, side, lo, rank, pos + 1)
  {
    hide Live, Between;
    var slot := SlotAt(side, |levels|, rank);
    var orders := levels[slot].orders;
    QueueUpdate(levels, side, lo, rank, level);
    LiveAt(level.orders, pos, side, lo + slot);
    assert level.orders[..pos] == orders[..pos] && level.orders[pos + 1..] == orders[pos + 1..];
    Regroup(Between(levels, side, lo, 0, rank), Live(orders[..pos], side, lo + slot),
            Single(e, side, lo + slot), Live(orders[pos + 1..], side, lo + slot),
            Between(levels, side, lo, rank + 1, |levels|));
  }

  lemma {:induction false} QueueAppend(levels: seq<FlatLevel>, side: Side, lo: Price, rank: nat, e: FlatOrder,
                                       level: FlatLevel)
    requires rank < |levels| && e.quantity > 0
    requires level.orders == levels[SlotAt(side, |levels|, rank)].orders + [e]
    ensures var slot := SlotAt(side, |levels|, rank);
            Queue(levels[slot := level], side, lo)
            == Insert(Queue(levels, side, lo), Order(e.id, side, lo + slot, e.quantity))
  {
    var slot := SlotAt(side, |levels|, rank);
    var o := Order(e.id, side, lo + slot, e.quantity);
    var front, back := Between(levels, side, lo, 0, rank), Between(levels, side, lo, rank + 1, |levels|);
    var here := Live(level.orders, side, lo + slot);
    assert here == LevelQueue(levels, side, lo, slot) + [o] by {
      LiveAppend(levels[slot].orders, e, side, lo + slot);
    }
    assert Insert(Queue(levels, side, lo), o) == front + here + back by {
      InsertAtLevel(levels, side, lo, rank, o);
    }
    QueueUpdate(levels, side, lo, rank, level);
  }

  lemma {:induction false} LiveAppend(orders: seq<FlatOrder>, e: FlatOrder, side: Side, price: Price)
    ensures Live(orders + [e], side, price) == Live(orders, side, price) + Single(e, side, price)
  {
    LiveConcat(orders, [e], side, price);
    assert [e][1..] == [];
  }

  /** Nothing of the same id stands ahead of an indexed order. */
  lemma {:induction false} FrontHasNot(r: Rep, lo: Price, id: OrderId, rank: nat)
    requires IndexOk(r, lo) && id in r.index
    requires rank < |LevelsOf(r, r.index[id].side)|
    requires SlotAt(r.index[id].side, |LevelsOf(r, r.index[id].side)|, rank) == r.index[id].price - lo
    requires Inside(r, lo, r.index[id])
    ensures !Has(FrontOf(LevelsOf(r, r.index[id].side), r.index[id].side, lo, rank, r.index[id].pos), id)
  {
    var l := r.index[id];
    var levels := LevelsOf(r, l.side);
    var orders := levels[l.price - lo].orders;
    var a := Between(levels, l.side, lo, 0, rank);
    var b := Live(orders[..l.pos], l.side, l.price);
    forall n | 0 <= n < |a| ensures a[n].id != id {
      QueuedIsIndexed(r, lo, l.side, 0, rank, n);
    }
    forall n | 0 <= n < |b| ensures b[n].id != id {
      var p := LiveComesFrom(orders[..l.pos], l.side, l.price, n);
      var other := Locator(l.side, l.price, p);
      assert Inside(r, lo, other) && EntryAt(r, lo, other) == orders[p];
    }
  }

  // ---- Queue operations at a known split -----------------------------------------------------

  lemma {:induction false} HasAt(q: seq<Order>, i: nat)
    requires i < |q|
    ensures Has(q, q[i].id)
  {
  }

  lemma {:induction false} OpsAtSplit(a: seq<Order>, o: Order, c: seq<Order>)
    requires !Has(a, o.id)
    ensures Has(a + [o] + c, o.id) && Lookup(a + [o] + c, o.id) == o
    ensures Remove(a + [o] + c, o.id) == a + c
    decreases |a|
  {
    hide Has;
    var q := a + [o] + c;
    assert q[|a|] == o;
    HasAt(q, |a|);
    if a == [] {
      assert q == [o] + c && q[1..] == c;
      assert a + c == c;
    } else {
      TailHasNot(a, o.id);
      OpsAtSplit(a[1..], o, c);
      assert q[0] == a[0] && q[1..] == a[1..] + [o] + c;
      assert [a[0]] + (a[1..] + c) == a + c;
    }
  }

  lemma {:induction false} TailHasNot(a: seq<Order>, id: OrderId)
    requires a != [] && !Has(a, id)
    ensures a[0].id != id && !Has(a[1..], id)
  {
    forall i | 0 <= i < |a[1..]| ensures a[1..][i].id != id { assert a[1..][i] == a[i + 1]; }
  }

  lemma {:induction false} ResizeAtSplit(a: seq<Order>, o: Order, c: seq<Order>, n: Quantity)
    requires !Has(a, o.id)
    ensures Resize(a + [o] + c, o.id, n) == a + [o.(quantity := n)] + c
    decreases |a|
  {
    hide Has;
    var q := a + [o] + c;
    if a == [] {
      assert q == [o] + c && q[1..] == c;
    } else {
      TailHasNot(a, o.id);
      ResizeAtSplit(a[1..], o, c, n);
      assert q[0] == a[0] && q[1..] == a[1..] + [o] + c;
      assert [a[0]] + (a[1..] + [o.(quantity := n)] + c) == a + [o.(quantity := n)] + c;
    }
  }

  /** The facts about one indexed order that every operation on it needs. */
  lemma {:induction false} IndexedOrder(r: Rep, lo: Price, id: OrderId, n: Quantity) returns (rank: nat)
    requires IndexOk(r, lo) && id in r.index
    ensures var l := r.index[id];
            var levels := LevelsOf(r, l.side);
            && Inside(r, lo, l) && EntryAt(r, lo, l).id == id && EntryAt(r, lo, l).quantity > 0
            && rank < |levels| && SlotAt(l.side, |levels|, rank) == l.price - lo
            && (var q := Queue(levels, l.side, lo);
                var front := FrontOf(levels, l.side, lo, rank, l.pos);
                var back := BackOf(levels, l.side, lo, rank, l.pos + 1);
                && Has(q, id)
                && Lookup(q, id) == Order(id, l.side, l.price, EntryAt(r, lo, l).quantity)
                && Remove(q, id) == front + back
                && Resize(q, id, n) == front + [Order(id, l.side, l.price, n)] + back)
  {
    var l := r.index[id];
    var levels := LevelsOf(r, l.side);
    assert Inside(r, lo, l) && EntryAt(r, lo, l).quantity > 0;
    rank := RankOf(l.side, |levels|, l.price - lo);
    QueueAtPos(levels, l.side, lo, rank, l.pos);
    FrontHasNot(r, lo, id, rank);
    var o := Order(id, l.side, l.price, EntryAt(r, lo, l).quantity);
    OpsAtSplit(FrontOf(levels, l.side, lo, rank, l.pos), o, BackOf(levels, l.side, lo, rank, l.pos + 1));
    ResizeAtSplit(FrontOf(levels, l.side, lo, rank, l.pos), o, BackOf(levels, l.side, lo, rank, l.pos + 1), n);
  }

  /** `contains` and the locator answer exactly what the book says. */
  lemma {:induction false} IndexIsTheBook(r: Rep, lo: Price, id: OrderId)
    requires IndexOk(r, lo)
    ensures Contains(BookOf(r, lo), id) <==> id in r.index
    ensures id in r.index ==>
              var l := r.index[id];
              Inside(r, lo, l) && Find(BookOf(r, lo), id) == Order(id, l.side, l.price, EntryAt(r, lo, l).quantity)
  {
    if Has(Queue(r.bids, Buy, lo), id) { HasMeansIndexed(r, lo, Buy, id); }
    if Has(Queue(r.asks, Sell, lo), id) { HasMeansIndexed(r, lo, Sell, id); }
    if id in r.index {
      var rank := IndexedOrder(r, lo, id, 0);
    }
  }

  lemma {:induction false} BookUpdate(r: Rep, lo: Price, side: Side, slot: nat, level: FlatLevel)
    requires slot < |LevelsOf(r, side)|
    ensures BookOf(WithLevel(r, side, slot, level), lo)
            == WithSide(BookOf(r, lo), side, Queue(LevelsOf(r, side)[slot := level], side, lo))
  {
  }

  /** Writing quantity `n` at an indexed entry removes the order (0) or resizes it. */
  lemma {:induction false} WriteAtOrder(r: Rep, lo: Price, id: OrderId, n: Quantity, level: FlatLevel)
    requires IndexOk(r, lo) && id in r.index
    requires var l := r.index[id];
             Inside(r, lo, l) &&
             level.orders == LevelAt(r, l.side, l.price - lo).orders[l.pos := EntryAt(r, lo, l).(quantity := n)]
    ensures var l := r.index[id];
            var q := Queue(LevelsOf(r, l.side), l.side, lo);
            var q' := Queue(LevelsOf(r, l.side)[l.price - lo := level], l.side, lo);
            && Has(q, id)
            && (n == 0 ==> q' == Remove(q, id))
            && (n > 0 ==> q' == Resize(q, id, n))
  {
    var l := r.index[id];
    var levels := LevelsOf(r, l.side);
    var rank := IndexedOrder(r, lo, id, n);
    QueuePosUpdate(levels, l.side, lo, rank, l.pos, EntryAt(r, lo, l).(quantity := n), level);
    var front := FrontOf(levels, l.side, lo, rank, l.pos);
    assert front + [] == front;
  }

  /** Tombstoning an indexed order is `Cancel` on the book. */
  lemma {:induction false} KillIsCancel(r: Rep, lo: Price, id: OrderId, level: FlatLevel)
    requires IndexOk(r, lo) && id in r.index
    requires var l := r.index[id];
             Inside(r, lo, l) &&
             level.orders == LevelAt(r, l.side, l.price - lo).orders[l.pos := EntryAt(r, lo, l).(quantity := 0)]
    ensures var l := r.index[id];
            BookOf(WithLevel(r, l.side, l.price - lo, level), lo) == Cancel(BookOf(r, lo), id)
  {
    hide Live, Between, Resize, Remove;
    var l := r.index[id];
    WriteAtOrder(r, lo, id, 0, level);
    BookUpdate(r, lo, l.side, l.price - lo, level);
    if l.side.Sell? && Has(Queue(r.bids, Buy, lo), id) { HasMeansIndexed(r, lo, Buy, id); }
  }

  lemma {:induction false} ReduceIsResize(r: Rep, lo: Price, id: OrderId, n: Quantity, level: FlatLevel)
    requires IndexOk(r, lo) && id in r.index && n > 0
    requires var l := r.index[id];
             Inside(r, lo, l) &&
             level.orders == LevelAt(r, l.side, l.price - lo).orders[l.pos := EntryAt(r, lo, l).(quantity := n)]
    ensures var l := r.index[id];
            BookOf(WithLevel(r, l.side, l.price - lo, level), lo)
            == WithSide(BookOf(r, lo), l.side, Resize(SideOf(BookOf(r, lo), l.side), id, n))
  {
    hide Live, Between, Resize, Remove, Has;
    var l := r.index[id];
    WriteAtOrder(r, lo, id, n, level);
    BookUpdate(r, lo, l.side, l.price - lo, level);
  }

  /** Appending to a level is `Insert` on the side. */
  lemma {:induction false} AppendIsInsert(r: Rep, lo: Price, side: Side, slot: nat, e: FlatOrder, level: FlatLevel)
    requires slot < |LevelsOf(r, side)| && e.quantity > 0
    requires level.orders == LevelAt(r, side, slot).orders + [e]
    ensures BookOf(WithLevel(r, side, slot, level), lo)
            == WithSide(BookOf(r, lo), side,
                        Insert(SideOf(BookOf(r, lo), side), Order(e.id, side, lo + slot, e.quantity)))
  {
    hide Live, Between, Insert;
    var rank := RankOf(side, |LevelsOf(r, side)|, slot);
    QueueAppend(LevelsOf(r, side), side, lo, rank, e, level);
    BookUpdate(r, lo, side, slot, level);
  }

  /** A level whose live queue does not change does not change the book. */
  lemma {:induction false} SameLiveSameBook(r: Rep, lo: Price, side: Side, slot: nat, level: FlatLevel)
    requires slot < |LevelsOf(r, side)|
    requires Live(level.orders, side, lo + slot) == Live(LevelAt(r, side, slot).orders, side, lo + slot)
    ensures BookOf(WithLevel(r, side, slot, level), lo) == BookOf(r, lo)
  {
    var levels := LevelsOf(r, side);
    var rank := RankOf(side, |levels|, slot);
    QueueUpdate(levels, side, lo, rank, level);
    QueueAround(levels, side, lo, rank);
  }
}
