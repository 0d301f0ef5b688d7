/**
 * The ordered price-to-level map of the node-based storages (`std::map` with the side's comparator),
 * as a sequence of levels, best price first.
 */
module PriceMap {
  import opened Types
  import opened BookSpec
  import opened BookTheorems
  import opened BookQueries
  import opened MatchSteps

  datatype Level = Level(price: Price, orders: seq<Order>)

  type LevelMap = seq<Level>

  ghost predicate SortedMap(side: Side, m: LevelMap) {
    forall i, j :: 0 <= i < j < |m| ==> Better(side, m[i].price, m[j].price)
  }

  /** No empty level, and every order sits at its own price. */
  ghost predicate Grouped(m: LevelMap) {
    forall i :: 0 <= i < |m| ==> m[i].orders != [] && AllAt(m[i].orders, m[i].price)
  }

  ghost predicate AllAt(q: seq<Order>, price: Price) {
    forall n :: 0 <= n < |q| ==> q[n].price == price
  }

  /** The side's queue: levels best first, each oldest first. */
  function Flatten(m: LevelMap): seq<Order> {
    if m == [] then [] else m[0].orders + Flatten(m[1..])
  }

  /** `lower_bound`: the first level not strictly better than `price`. */
  function Slot(m: LevelMap, side: Side, price: Price): (k: nat)
    ensures k <= |m|
    ensures forall i :: 0 <= i < k ==> Better(side, m[i].price, price)
    ensures k < |m| ==> !Better(side, m[k].price, price)
  {
    if m == [] || !Better(side, m[0].price, price) then 0 else 1 + Slot(m[1..], side, price)
  }

  /** `try_emplace(price)` followed by a push to the back of that level. */
  function Push(m: LevelMap, side: Side, o: Order): LevelMap {
    var k := Slot(m, side, o.price);
    if k < |m| && m[k].price == o.price then m[k := Level(o.price, m[k].orders + [o])]
    else m[..k] + [Level(o.price, [o])] + m[k..]
  }

  /** Replace a level's orders, erasing the level when nothing is left. */
  function SetOrders(m: LevelMap, k: nat, orders: seq<Order>): LevelMap
    requires k < |m|
  {
    if orders == [] then m[..k] + m[k + 1..] else m[k := Level(m[k].price, orders)]
  }

  // ---- Flattening ----------------------------------------------------------------------------

  lemma {:induction false} FlattenConcat(a: LevelMap, b: LevelMap)
    ensures Flatten(a + b) == Flatten(a) + Flatten(b)
    decreases |a|
  {
    if a == [] {
      assert a + b == b;
    } else {
      assert (a + b)[0] == a[0] && (a + b)[1..] == a[1..] + b;
      FlattenConcat(a[1..], b);
    }
  }

  lemma {:induction false} FlattenOne(l: Level)
    ensures Flatten([l]) == l.orders
  {
    assert [l][1..] == [];
    assert l.orders + [] == l.orders;
  }

  lemma {:induction false} FlattenAt(m: LevelMap, k: nat)
    requires k < |m|
    ensures Flatten(m) == Flatten(m[..k]) + m[k].orders + Flatten(m[k + 1..])
  {
    hide Flatten;
    assert m == m[..k] + [m[k]] + m[k + 1..];
    FlattenConcat(m[..k] + [m[k]], m[k + 1..]);
    FlattenConcat(m[..k], [m[k]]);
    FlattenOne(m[k]);
  }

  lemma {:induction false} FlattenSet(m: LevelMap, k: nat, orders: seq<Order>)
    requires k < |m|
    ensures Flatten(SetOrders(m, k, orders)) == Flatten(m[..k]) + orders + Flatten(m[k + 1..])
  {
    hide Flatten;
    if orders == [] {
      FlattenConcat(m[..k], m[k + 1..]);
      assert Flatten(m[..k]) + [] == Flatten(m[..k]);
    } else {
      var u := m[k := Level(m[k].price, orders)];
      FlattenAt(u, k);
      assert u[..k] == m[..k] && u[k + 1..] == m[k + 1..];
    }
  }

  /** Every order of the queue belongs to some level. */
  lemma {:induction false} FlattenFrom(m: LevelMap, n: nat) returns (k: nat, i: nat)
    requires n < |Flatten(m)|
    ensures k < |m| && i < |m[k].orders| && Flatten(m)[n] == m[k].orders[i]
    decreases |m|
  {
    if n < |m[0].orders| {
      k, i := 0, n;
    } else {
      var k', i' := FlattenFrom(m[1..], n - |m[0].orders|);
      k, i := k' + 1, i';
    }
  }

  lemma {:induction false} FlattenEmpty(m: LevelMap)
    requires Grouped(m)
    ensures Flatten(m) == [] <==> m == []
    ensures m != [] ==> Flatten(m)[0] == m[0].orders[0] && Flatten(m)[0].price == m[0].price
  {
  }

  // ---- Updates -------------------------------------------------------------------------------

  lemma {:induction false} SetKeepsMap(side: Side, m: LevelMap, k: nat, orders: seq<Order>)
    requires SortedMap(side, m) && Grouped(m) && k < |m| && AllAt(orders, m[k].price)
    ensures SortedMap(side, SetOrders(m, k, orders)) && Grouped(SetOrders(m, k, orders))
  {
    var u := SetOrders(m, k, orders);
    if orders == [] {
      assert forall i :: 0 <= i < |u| ==> u[i] == m[if i < k then i else i + 1];
    }
  }

  lemma {:induction false} PushKeepsMap(side: Side, m: LevelMap, o: Order)
    requires SortedMap(side, m) && Grouped(m)
    ensures SortedMap(side, Push(m, side, o)) && Grouped(Push(m, side, o))
  {
    var k := Slot(m, side, o.price);
    var u := Push(m, side, o);
    if !(k < |m| && m[k].price == o.price) {
      forall i, j | 0 <= i < j < |u| ensures Better(side, u[i].price, u[j].price) {
        assert u[i] == (if i < k then m[i] else if i == k then Level(o.price, [o]) else m[i - 1]);
        assert u[j] == (if j < k then m[j] else if j == k then Level(o.price, [o]) else m[j - 1]);
        if i == k && j - 1 > k { assert Better(side, m[k].price, m[j - 1].price); }
      }
    }
  }

  lemma {:induction false} BetterLevels(side: Side, m: LevelMap, k: nat, price: Price)
    requires Grouped(m) && k <= |m| && forall i :: 0 <= i < k ==> Better(side, m[i].price, price)
    ensures forall n :: 0 <= n < |Flatten(m[..k])| ==> Better(side, Flatten(m[..k])[n].price, price)
  {
    hide Flatten;
    forall n | 0 <= n < |Flatten(m[..k])| ensures Better(side, Flatten(m[..k])[n].price, price) {
      var i, j := FlattenFrom(m[..k], n);
    }
  }

  lemma {:induction false} WorseLevels(side: Side, m: LevelMap, k: nat, price: Price)
    requires Grouped(m) && k <= |m| && forall i :: k <= i < |m| ==> Better(side, price, m[i].price)
    ensures forall n :: 0 <= n < |Flatten(m[k..])| ==> Better(side, price, Flatten(m[k..])[n].price)
  {
    hide Flatten;
    forall n | 0 <= n < |Flatten(m[k..])| ensures Better(side, price, Flatten(m[k..])[n].price) {
      var i, j := FlattenFrom(m[k..], n);
    }
  }

  lemma {:induction false} InsertBetween(a: seq<Order>, b: seq<Order>, o: Order)
    requires forall i :: 0 <= i < |a| ==> !Better(o.side, o.price, a[i].price)
    requires b != [] ==> Better(o.side, o.price, b[0].price)
    ensures Insert(a + b, o) == a + [o] + b
    decreases |a|
  {
    if a == [] {
      assert a + b == b && a + [o] + b == [o] + b;
    } else {
      assert (a + b)[0] == a[0] && (a + b)[1..] == a[1..] + b;
      InsertBetween(a[1..], b, o);
      assert [a[0]] + (a[1..] + [o] + b) == a + [o] + b;
    }
  }

  /** Pushing onto a level is inserting into the queue. */
  lemma {:induction false} PushIsInsert(side: Side, m: LevelMap, o: Order)
    requires SortedMap(side, m) && Grouped(m) && o.side == side
    ensures Flatten(Push(m, side, o)) == Insert(Flatten(m), o)
  {
    hide Flatten, Insert;
    var k := Slot(m, side, o.price);
    BetterLevels(side, m, k, o.price);
    if k < |m| && m[k].price == o.price {
      var a, l, c := Flatten(m[..k]), m[k].orders, Flatten(m[k + 1..]);
      FlattenAt(m, k);
      var u := Push(m, side, o);
      FlattenAt(u, k);
      assert u[..k] == m[..k] && u[k + 1..] == m[k + 1..];
      WorseLevels(side, m, k + 1, o.price);
      InsertBetween(a + l, c, o);
      assert a + l + [o] + c == a + (l + [o]) + c;
    } else {
      var a, c := Flatten(m[..k]), Flatten(m[k..]);
      assert m == m[..k] + m[k..];
      FlattenConcat(m[..k], m[k..]);
      FlattenConcat(m[..k] + [Level(o.price, [o])], m[k..]);
      FlattenConcat(m[..k], [Level(o.price, [o])]);
      FlattenOne(Level(o.price, [o]));
      assert forall i :: k <= i < |m| ==> Better(side, o.price, m[i].price) by {
        forall i | k <= i < |m| ensures Better(side, o.price, m[i].price) {
          if i > k { assert Better(side, m[k].price, m[i].price); }
        }
      }
      WorseLevels(side, m, k, o.price);
      InsertBetween(a, c, o);
    }
  }

  /** An order of a well-grouped side sits in the level of its own price. */
  lemma {:induction false} LevelOfOrder(side: Side, m: LevelMap, id: OrderId)
    requires SortedMap(side, m) && Grouped(m) && Has(Flatten(m), id)
    requires DistinctIds(Flatten(m))
    ensures var o := Lookup(Flatten(m), id);
            var k := Slot(m, side, o.price);
            && k < |m| && m[k].price == o.price
            && Has(m[k].orders, id) && Lookup(m[k].orders, id) == o && o.id == id
  {
    hide Flatten, Slot;
    var q := Flatten(m);
    var n := RemoveSplits(q, id);
    var k, i := FlattenFrom(m, n);
    var s := Slot(m, side, q[n].price);
    assert m[k].price == q[n].price;
    SlotIs(side, m, k);
    LookupInPart(m, k, i, id, n);
  }

  lemma {:induction false} SlotIs(side: Side, m: LevelMap, k: nat)
    requires SortedMap(side, m) && k < |m|
    ensures Slot(m, side, m[k].price) == k
  {
    var s := Slot(m, side, m[k].price);
    assert forall i :: 0 <= i < k ==> Better(side, m[i].price, m[k].price);
  }

  lemma {:induction false} LookupInPart(m: LevelMap, k: nat, i: nat, id: OrderId, n: nat)
    requires k < |m| && i < |m[k].orders| && n < |Flatten(m)| && Flatten(m)[n] == m[k].orders[i]
             && m[k].orders[i].id == id
    requires DistinctIds(Flatten(m))
    ensures Has(m[k].orders, id) && Lookup(m[k].orders, id) == Flatten(m)[n]
  {
    hide Flatten, Remove;
    var l := m[k].orders;
    assert l[i].id == id;
    var j := RemoveSplits(l, id);
    FlattenAt(m, k);
    var d := |Flatten(m[..k])|;
    assert Flatten(m)[d + j] == l[j] && Flatten(m)[d + i] == l[i];
  }

  /** Removing from the level is removing from the queue. */
  lemma {:induction false} RemoveInPart(m: LevelMap, k: nat, id: OrderId, n: Quantity)
    requires k < |m| && Has(m[k].orders, id) && DistinctIds(Flatten(m))
    ensures Flatten(SetOrders(m, k, Remove(m[k].orders, id))) == Remove(Flatten(m), id)
    ensures Flatten(m[k := Level(m[k].price, Resize(m[k].orders, id, n))]) == Resize(Flatten(m), id, n)
  {
    hide Flatten;
    var a, l, c := Flatten(m[..k]), m[k].orders, Flatten(m[k + 1..]);
    FlattenAt(m, k);
    FlattenSet(m, k, Remove(l, id));
    var u := m[k := Level(m[k].price, Resize(l, id, n))];
    FlattenAt(u, k);
    assert u[..k] == m[..k] && u[k + 1..] == m[k + 1..];
    NotBefore(a, l, c, id);
    RemoveMiddle(a, l, c, id, n);
  }

  lemma {:induction false} NotBefore(a: seq<Order>, l: seq<Order>, c: seq<Order>, id: OrderId)
    requires Has(l, id) && DistinctIds(a + l + c)
    ensures !Has(a, id)
  {
    var q := a + l + c;
    var j :| 0 <= j < |l| && l[j].id == id;
    assert q[|a| + j].id == id;
    forall i | 0 <= i < |a| ensures a[i].id != id { assert q[i] == a[i]; }
  }

  lemma {:induction false} RemoveMiddle(a: seq<Order>, l: seq<Order>, c: seq<Order>, id: OrderId, n: Quantity)
    requires !Has(a, id) && Has(l, id)
    ensures Remove(a + l + c, id) == a + Remove(l, id) + c
    ensures Resize(a + l + c, id, n) == a + Resize(l, id, n) + c
  {
    hide Has, Remove, Resize, Lookup;
    var j := RemoveSplits(l, id);
    var q := a + l + c;
    assert a + l <= q;
    RemoveAt(q, id, |a| + j, a, l, j);
    ResizeAt(l, id, n, j);
    FirstAt(a, l, c, id, j);
    assert q[|a| + j] == l[j];
    ResizeAt(q, id, n, |a| + j);
    CutMiddle(a, l, c, j, l[j].(quantity := n));
  }

  lemma {:induction false} CutMiddle<T>(a: seq<T>, l: seq<T>, c: seq<T>, j: nat, x: T)
    requires j < |l|
    ensures (a + l + c)[..|a| + j] + (a + l + c)[|a| + j + 1..] == a + (l[..j] + l[j + 1..]) + c
    ensures (a + l + c)[|a| + j := x] == a + l[j := x] + c
  {
  }

  lemma {:induction false} FirstAt(a: seq<Order>, l: seq<Order>, c: seq<Order>, id: OrderId, j: nat)
    requires !Has(a, id) && j < |l| && forall i :: 0 <= i < j ==> l[i].id != id
    ensures forall i :: 0 <= i < |a| + j ==> (a + l + c)[i].id != id
  {
    forall i | 0 <= i < |a| + j ensures (a + l + c)[i].id != id {
      if i < |a| { assert (a + l + c)[i] == a[i]; } else { assert (a + l + c)[i] == l[i - |a|]; }
    }
  }

  lemma {:induction false} RemoveAt(q: seq<Order>, id: OrderId, k: nat, a: seq<Order>, l: seq<Order>, j: nat)
    requires k == |a| + j && j < |l| && l[j].id == id && a + l <= q && !Has(a, id)
    requires forall i :: 0 <= i < j ==> l[i].id != id
    ensures Remove(q, id) == q[..k] + q[k + 1..]
  {
    assert q[k] == l[j];
    assert Has(q, id);
    FirstAt(a, l, q[|a + l|..], id, j);
    assert q == a + l + q[|a + l|..];
    var n := RemoveSplits(q, id);
  }

  // ---- Levels of a reachable book ------------------------------------------------------------

  lemma {:induction false} FlattenNone()
    ensures Flatten([]) == []
  {
  }

  /** One occupied level at the front of the side. */
  lemma {:induction false} FrontLevel(side: Side, m: LevelMap, kept: seq<Order>)
    requires SortedMap(side, m) && Grouped(m) && m != [] && AllAt(kept, m[0].price)
    ensures Flatten(m) == m[0].orders + Flatten(m[1..])
    ensures Flatten(SetOrders(m, 0, kept)) == kept + Flatten(m[1..])
    ensures SortedMap(side, SetOrders(m, 0, kept)) && Grouped(SetOrders(m, 0, kept))
  {
    hide Flatten, SetOrders;
    FlattenAt(m, 0);
    FlattenSet(m, 0, kept);
    SetKeepsMap(side, m, 0, kept);
    assert m[..0] == [];
    FlattenNone();
    assert [] + m[0].orders == m[0].orders && [] + kept == kept;
  }

  lemma {:induction false} LevelPrices(m: LevelMap)
    requires Grouped(m) && m != []
    ensures m[0].orders != [] && AllAt(m[0].orders, m[0].price)
  {
  }

  lemma {:induction false} LevelIsLive(m: LevelMap, k: nat, side: Side)
    requires k < |m| && LiveOn(side, Flatten(m)) && Grouped(m)
    ensures forall i :: 0 <= i < |m[k].orders| ==> m[k].orders[i].quantity > 0 && m[k].orders[i].price == m[k].price
  {
    hide Flatten;
    FlattenAt(m, k);
    var d := |Flatten(m[..k])|;
    forall i | 0 <= i < |m[k].orders| ensures m[k].orders[i].quantity > 0 && m[k].orders[i].price == m[k].price {
      assert Flatten(m)[d + i] == m[k].orders[i];
    }
  }

  /** Where the locator of a resting order leads. */
  lemma {:induction false} FoundInLevel(b: Book, side: Side, m: LevelMap, id: OrderId)
    requires BookOk(b) && SideOf(b, side) == Flatten(m) && SortedMap(side, m) && Grouped(m)
    requires Contains(b, id) && Find(b, id).side == side
    ensures var o := Find(b, id);
            var k := Slot(m, side, o.price);
            && k < |m| && m[k].price == o.price && Has(m[k].orders, id) && Lookup(m[k].orders, id) == o
  {
    hide BookOk, Flatten, Slot, Lookup, SortedMap, Grouped;
    FindOnSide(b, id);
    BookSides(b, side);
    LevelOfOrder(side, m, id);
  }

  lemma {:induction false} ErasedLevel(b: Book, side: Side, m: LevelMap, id: OrderId)
    requires BookOk(b) && SideOf(b, side) == Flatten(m) && SortedMap(side, m) && Grouped(m)
    requires Contains(b, id) && Find(b, id).side == side
    ensures var k := Slot(m, side, Find(b, id).price);
            && k < |m| && m[k].price == Find(b, id).price
            && (var u := SetOrders(m, k, Remove(m[k].orders, id));
                SortedMap(side, u) && Grouped(u) && Cancel(b, id) == WithSide(b, side, Flatten(u)))
  {
    hide BookOk, Flatten, Slot, Lookup, SortedMap, SetOrders;
    FoundInLevel(b, side, m, id);
    FindOnSide(b, id);
    BookSides(b, side);
    var k := Slot(m, side, Find(b, id).price);
    RemoveInPart(m, k, id, 0);
    var j := RemoveSplits(m[k].orders, id);
    SetKeepsMap(side, m, k, Remove(m[k].orders, id));
  }

  lemma {:induction false} ResizedLevel(b: Book, side: Side, m: LevelMap, id: OrderId, n: Quantity)
    requires BookOk(b) && SideOf(b, side) == Flatten(m) && SortedMap(side, m) && Grouped(m)
    requires Contains(b, id) && Find(b, id).side == side && n > 0
    ensures var k := Slot(m, side, Find(b, id).price);
            && k < |m| && m[k].price == Find(b, id).price
            && (var u := m[k := Level(m[k].price, Resize(m[k].orders, id, n))];
                && SortedMap(side, u) && Grouped(u)
                && BookOk(WithSide(b, side, Flatten(u)))
                && Flatten(u) == Resize(SideOf(b, side), id, n))
  {
    hide BookOk, Flatten, Slot, Lookup, Resize;
    FoundInLevel(b, side, m, id);
    FindOnSide(b, id);
    BookSides(b, side);
    var k := Slot(m, side, Find(b, id).price);
    RemoveInPart(m, k, id, n);
    var j := RemoveSplits(m[k].orders, id);
    ResizeAt(m[k].orders, id, n, j);
    var f := ResizeEmbeds(SideOf(b, side), id, n, side);
    EmbedKeepsBook(Baseline, b, side, Resize(SideOf(b, side), id, n), f);
  }

  // ---- Queries -------------------------------------------------------------------------------

  lemma {:induction false} OtherPrices(m: LevelMap, price: Price)
    requires Grouped(m) && forall i :: 0 <= i < |m| ==> m[i].price != price
    ensures forall n :: 0 <= n < |Flatten(m)| ==> Flatten(m)[n].price != price
  {
    hide Flatten;
    forall n | 0 <= n < |Flatten(m)| ensures Flatten(m)[n].price != price {
      var k, i := FlattenFrom(m, n);
      assert AllAt(m[k].orders, m[k].price);
    }
  }

  /** The quantity at a price is the total of the level found by `lower_bound`, if it has that price. */
  lemma {:induction false} QuantityAtMap(side: Side, m: LevelMap, price: Price)
    requires SortedMap(side, m) && Grouped(m)
    ensures var k := Slot(m, side, price);
            QuantityAt(Flatten(m), price)
            == if k < |m| && m[k].price == price then TotalQuantity(m[k].orders) else 0
  {
    hide Flatten, Slot, QuantityAt, TotalQuantity;
    var k := Slot(m, side, price);
    if k < |m| && m[k].price == price {
      var a, c := Flatten(m[..k]), Flatten(m[k + 1..]);
      FlattenAt(m, k);
      OtherPrices(m[..k], price);
      OtherPrices(m[k + 1..], price);
      QuantityAtConcat(a + m[k].orders, c, price);
      QuantityAtConcat(a, m[k].orders, price);
      QuantityAtUniform(a, price, false);
      QuantityAtUniform(c, price, false);
      assert AllAt(m[k].orders, m[k].price);
      QuantityAtUniform(m[k].orders, price, true);
    } else {
      forall i | 0 <= i < |m| ensures m[i].price != price {
        if i > k { assert Better(side, m[k].price, m[i].price); }
      }
      OtherPrices(m, price);
      QuantityAtUniform(Flatten(m), price, false);
    }
  }

  lemma {:induction false} FlattenStep(m: LevelMap, i: nat)
    requires i <= |m|
    ensures i < |m| ==> Flatten(m[i..]) == m[i].orders + Flatten(m[i + 1..])
    ensures i == |m| ==> Flatten(m[i..]) == []
  {
    if i < |m| {
      assert m[i..][1..] == m[i + 1..];
    }
  }

  /** Walking the levels in map order lists the aggregate view. */
  lemma {:induction false} LevelsFrom(side: Side, m: LevelMap, i: nat)
    requires SortedMap(side, m) && Grouped(m) && i <= |m|
    ensures i < |m| ==> Levels(Flatten(m[i..]))
                        == [LevelView(m[i].price, TotalQuantity(m[i].orders))] + Levels(Flatten(m[i + 1..]))
    ensures i == |m| ==> Levels(Flatten(m[i..])) == []
  {
    hide Levels, TotalQuantity, Flatten;
    FlattenStep(m, i);
    if i < |m| {
      var rest := Flatten(m[i + 1..]);
      FlattenEmpty(m[i + 1..]);
      assert AllAt(m[i].orders, m[i].price);
      LevelsOfRun(m[i].orders, rest, m[i].price);
    } else {
      LevelsFront([]);
    }
  }
}
