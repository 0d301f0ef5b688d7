/** The baseline storage: ordered maps of FIFO lists plus an id index, mutated in place. */
module BaselineStore {
  import opened Types
  import opened BookSpec
  import opened BookTheorems
  import opened BookQueries
  import opened MatchSteps
  import opened PriceMap

  /** Where an order rests. The list iterator names the list element it points at by the order held there. */
  datatype Locator = Locator(side: Side, price: Price, it: OrderId)

  /** The index holds exactly the resting ids, each with its side and price. */
  ghost predicate IndexAgrees(index: map<OrderId, Locator>, b: Book) {
    && (forall id :: id in index <==> Contains(b, id))
    && (forall id :: id in index ==> index[id] == Locator(Find(b, id).side, Find(b, id).price, id))
  }

  // ---- One maker at the front of a side ------------------------------------------------------

  /** Erasing a filled maker from the index, or leaving a reduced one, keeps the index right. */
  lemma {:induction false} FrontHitIndex(b: Book, side: Side, traded: Quantity, index: map<OrderId, Locator>)
    requires BookOk(b) && SideOf(b, side) != [] && 0 < traded <= SideOf(b, side)[0].quantity
    requires IndexAgrees(index, b)
    ensures var q := SideOf(b, side);
            IndexAgrees(if traded == q[0].quantity then index - {q[0].id} else index,
                        WithSide(b, side, FrontHit(q, traded)))
  {
    hide BookOk;
    var q := SideOf(b, side);
    var now := WithSide(b, side, FrontHit(q, traded));
    forall id
      ensures Contains(now, id) <==> Contains(b, id) && !(traded == q[0].quantity && id == q[0].id)
      ensures Contains(now, id) ==> Find(now, id).side == Find(b, id).side && Find(now, id).price == Find(b, id).price
    {
      FrontHitFind(b, side, traded, id);
    }
  }

  lemma {:induction false} FrontHitFind(b: Book, side: Side, traded: Quantity, id: OrderId)
    requires BookOk(b) && SideOf(b, side) != [] && 0 < traded <= SideOf(b, side)[0].quantity
    ensures var q := SideOf(b, side);
            var now := WithSide(b, side, FrontHit(q, traded));
            && (Contains(now, id) <==> Contains(b, id) && !(traded == q[0].quantity && id == q[0].id))
            && (Contains(now, id) ==>
                  Find(now, id).side == Find(b, id).side && Find(now, id).price == Find(b, id).price)
  {
    hide BookOk;
    BookSides(b, side);
    var q := SideOf(b, side);
    TailHas(q, id);
    if traded != q[0].quantity {
      var o := q[0].(quantity := q[0].quantity - traded);
      TailHas([o] + q[1..], id);
      assert ([o] + q[1..])[1..] == q[1..];
    }
    if id == q[0].id {
      assert !Has(q[1..], id);
      assert !Has(SideOf(b, Opposite(side)), id);
    }
  }

  lemma {:induction false} TailHas(q: seq<Order>, id: OrderId)
    requires q != []
    ensures Has(q, id) <==> q[0].id == id || Has(q[1..], id)
    ensures Has(q, id) && q[0].id != id ==> Lookup(q, id) == Lookup(q[1..], id)
  {
    if Has(q, id) {
      var i :| 0 <= i < |q| && q[i].id == id;
      if i > 0 { assert q[1..][i - 1].id == id; }
    }
    if Has(q[1..], id) {
      var i :| 0 <= i < |q[1..]| && q[1..][i].id == id;
      assert q[i + 1].id == id;
    }
  }

  // ---- Other changes to one side -------------------------------------------------------------

  /** `now` differs from `b` by one id: `id` is added, removed or kept. */
  ghost predicate OneIdChanged(b: Book, now: Book, id: OrderId) {
    forall x :: x != id ==>
      && (Contains(now, x) <==> Contains(b, x))
      && (Contains(now, x) ==> Find(now, x) == Find(b, x))
  }

  lemma {:induction false} IndexAfterAdd(b: Book, now: Book, o: Order, index: map<OrderId, Locator>)
    requires IndexAgrees(index, b) && OneIdChanged(b, now, o.id) && Contains(now, o.id) && Find(now, o.id) == o
    ensures IndexAgrees(index[o.id := Locator(o.side, o.price, o.id)], now)
  {
    hide Contains, Find;
  }

  lemma {:induction false} IndexAfterRemove(b: Book, now: Book, id: OrderId, index: map<OrderId, Locator>)
    requires IndexAgrees(index, b) && OneIdChanged(b, now, id) && !Contains(now, id)
    ensures IndexAgrees(index - {id}, now)
  {
    hide Contains, Find;
  }

  /** Putting `o` somewhere in its side changes what is found under no other id. */
  lemma {:induction false} PutChangesOne(b: Book, o: Order, r: seq<Order>, k: nat)
    requires PutAt(r, SideOf(b, o.side), o, k) && !Contains(b, o.id) && DistinctIds(SideOf(b, o.side))
    ensures OneIdChanged(b, WithSide(b, o.side, r), o.id)
  {
    hide DistinctIds;
    var now := WithSide(b, o.side, r);
    forall x | x != o.id
      ensures (Contains(now, x) <==> Contains(b, x)) && (Contains(now, x) ==> Find(now, x) == Find(b, x))
    {
      PutFind(SideOf(b, o.side), o, r, k, x);
    }
  }

  lemma {:induction false} PutFind(q: seq<Order>, o: Order, r: seq<Order>, k: nat, x: OrderId)
    requires PutAt(r, q, o, k) && x != o.id
    ensures Has(r, x) <==> Has(q, x)
    ensures Has(r, x) ==> Lookup(r, x) == Lookup(q, x)
  {
    hide Lookup;
    if Has(q, x) {
      var i := RemoveSplits(q, x);
      var j := if i < k then i else i + 1;
      assert r[j].id == x;
      assert forall n :: 0 <= n < j ==> r[n].id != x by {
        forall n | 0 <= n < j ensures r[n].id != x {
          if n > k { assert r[n] == q[n - 1]; }
        }
      }
      var j' := RemoveSplits(r, x);
    }
    if Has(r, x) {
      var j :| 0 <= j < |r| && r[j].id == x;
      assert q[if j < k then j else j - 1].id == x;
    }
  }

  lemma {:induction false} RemoveFind(q: seq<Order>, id: OrderId, x: OrderId)
    requires x != id
    ensures Has(Remove(q, id), x) <==> Has(q, x)
    ensures Has(q, x) ==> Lookup(Remove(q, id), x) == Lookup(q, x)
    decreases |q|
  {
    if q == [] {
    } else {
      TailHas(q, x);
      if q[0].id != id {
        RemoveFind(q[1..], id, x);
        TailHas([q[0]] + Remove(q[1..], id), x);
        assert ([q[0]] + Remove(q[1..], id))[1..] == Remove(q[1..], id);
      }
    }
  }

  lemma {:induction false} ResizeFind(q: seq<Order>, id: OrderId, n: Quantity, x: OrderId)
    ensures Has(Resize(q, id, n), x) <==> Has(q, x)
    ensures Has(q, x) ==> Lookup(Resize(q, id, n), x).side == Lookup(q, x).side
                          && Lookup(Resize(q, id, n), x).price == Lookup(q, x).price
    decreases |q|
  {
    if q != [] {
      TailHas(q, x);
      var r := Resize(q, id, n);
      TailHas(r, x);
      if q[0].id == id {
        assert r[1..] == q[1..];
      } else {
        ResizeFind(q[1..], id, n, x);
        assert r[1..] == Resize(q[1..], id, n);
      }
    }
  }

  lemma {:induction false} CancelChangesOne(b: Book, id: OrderId)
    requires BookOk(b) && Contains(b, id)
    ensures OneIdChanged(b, Cancel(b, id), id) && !Contains(Cancel(b, id), id)
  {
    hide BookOk;
    var now := Cancel(b, id);
    CancelRemoves(b, id);
    forall x | x != id
      ensures (Contains(now, x) <==> Contains(b, x)) && (Contains(now, x) ==> Find(now, x) == Find(b, x))
    {
      RemoveFind(b.bids, id, x);
      RemoveFind(b.asks, id, x);
    }
  }

  lemma {:induction false} IndexAfterResize(b: Book, side: Side, id: OrderId, n: Quantity, index: map<OrderId, Locator>)
    requires IndexAgrees(index, b)
    ensures IndexAgrees(index, WithSide(b, side, Resize(SideOf(b, side), id, n)))
  {
    var now := WithSide(b, side, Resize(SideOf(b, side), id, n));
    forall x
      ensures Contains(now, x) <==> Contains(b, x)
      ensures Contains(now, x) ==> Find(now, x).side == Find(b, x).side && Find(now, x).price == Find(b, x).price
    {
      ResizeFind(SideOf(b, side), id, n, x);
    }
  }

  /** Resting a remainder that does not cross: the book stays reachable and gains one index entry. */
  lemma {:induction false} RestIndex(b: Book, o: Order, index: map<OrderId, Locator>)
    requires BookOk(b) && IndexAgrees(index, b) && o.quantity > 0 && !Contains(b, o.id)
    requires SideOf(b, Opposite(o.side)) != [] ==>
               !Crosses(LimitTaker(o.id, o.side, o.price), SideOf(b, Opposite(o.side))[0].price)
    ensures var now := WithSide(b, o.side, Insert(SideOf(b, o.side), o));
            BookOk(now) && IndexAgrees(index[o.id := Locator(o.side, o.price, o.id)], now)
  {
    hide BookOk, IndexAgrees, Insert;
    BookSides(b, o.side);
    var q := SideOf(b, o.side);
    RestKeepsBook(Baseline, b, o);
    var k := InsertPuts(q, o);
    var now := WithSide(b, o.side, Insert(q, o));
    PutChangesOne(b, o, Insert(q, o), k);
    FoundAt(now, o.side, k, o.id);
    IndexAfterAdd(b, now, o, index);
  }

  lemma {:induction false} CountMaker(t: Taker, level: seq<Order>, i: nat, rest: seq<Order>, quantity: Quantity)
    requires i < |level| && quantity > 0 && level[i].quantity > 0 && Crosses(t, level[i].price)
    ensures Hits(t, level[i..] + rest, quantity)
            == 1 + Hits(t, level[i + 1..] + rest, quantity - Min(quantity, level[i].quantity))
  {
    var q := level[i..] + rest;
    assert q[0] == level[i] && q[1..] == level[i + 1..] + rest;
  }

  lemma {:induction false} CountEnd(t: Taker, level: seq<Order>, i: nat, rest: seq<Order>, quantity: Quantity)
    requires i <= |level| && (quantity == 0 || i == |level|)
    ensures Hits(t, level[i..] + rest, quantity) == Hits(t, rest, quantity)
  {
    if i == |level| {
      assert level[i..] + rest == rest;
    }
  }

  class Store {
    var bids: LevelMap
    var asks: LevelMap
    var index: map<OrderId, Locator>

    ghost function Book(): Book
      reads this`bids, this`asks
    {
      BookSpec.Book(Flatten(bids), Flatten(asks))
    }

    ghost predicate MapsOk()
      reads this`bids, this`asks
    {
      SortedMap(Buy, bids) && Grouped(bids) && SortedMap(Sell, asks) && Grouped(asks)
    }

    /** Ordered levels, none empty, a reachable book, and an index that agrees with the levels. */
    ghost predicate Valid()
      reads this
    {
      MapsOk() && BookOk(Book()) && IndexAgrees(index, Book())
    }

    constructor ()
      ensures Valid() && Book() == EMPTY_BOOK
    {
      bids, asks, index := [], [], map[];
    }

    function Levels(side: Side): LevelMap
      reads this
    {
      if side.Buy? then bids else asks
    }

    method SetLevels(side: Side, m: LevelMap)
      modifies this`bids, this`asks
      ensures Levels(side) == m && Levels(Opposite(side)) == old(Levels(Opposite(side)))
    {
      if side.Buy? { bids := m; } else { asks := m; }
    }

    // ---- Matching ----------------------------------------------------------------------------

    /** Hit makers from the front of one level's list until the taker or the list is used up. */
    method FillLevel(orders: seq<Order>, t: Taker, quantity: Quantity, ghost side: Side, ghost rest: seq<Order>,
                     ghost b: Book)
      returns (kept: seq<Order>, trades: seq<Trade>, left: Quantity)
      requires BookOk(b) && SideOf(b, side) == orders + rest && IndexAgrees(index, b)
      requires forall i :: 0 <= i < |orders| ==> Crosses(t, orders[i].price)
      modifies this`index
      ensures BookOk(WithSide(b, side, kept + rest)) && IndexAgrees(index, WithSide(b, side, kept + rest))
      ensures Match(t, orders + rest, quantity) == After(trades, Match(t, kept + rest, left))
      ensures left <= quantity && (left == 0 || kept == []) && (orders != [] && quantity > 0 ==> left < quantity)
      ensures forall p :: AllAt(orders, p) ==> AllAt(kept, p)
    {
      hide Match, BookOk, IndexAgrees;
      kept, trades, left := orders, [], quantity;
      ghost var now := b;
      assert WithSide(b, side, kept + rest) == b;
      while left > 0 && kept != []
        invariant now == WithSide(b, side, kept + rest) && BookOk(now) && IndexAgrees(index, now)
        invariant forall i :: 0 <= i < |kept| ==> Crosses(t, kept[i].price)
        invariant Match(t, orders + rest, quantity) == After(trades, Match(t, kept + rest, left))
        invariant left <= quantity && (orders != [] && quantity > 0 ==> left < quantity || kept != [])
        invariant forall p :: AllAt(orders, p) ==> AllAt(kept, p)
        decreases left
      {
        var maker := kept[0];
        ghost var q := kept + rest;
        assert q[0] == maker && q == SideOf(now, side);
        BookSides(now, side);
        var traded := Min(left, maker.quantity);
        FrontHitMatches(t, q, left);
        FrontHitKeepsBook(now, side, traded);
        FrontHitIndex(now, side, traded, index);
        ghost var was := kept;
        if traded == maker.quantity {
          index := index - {maker.id};
          kept := kept[1..];
        } else {
          kept := kept[0 := maker.(quantity := maker.quantity - traded)];
        }
        HitPart(was, rest, traded);
        assert kept + rest == FrontHit(q, traded);
        now := WithSide(b, side, kept + rest);
        ghost var m := Match(t, kept + rest, left - traded);
        AfterTwice(trades, [Trade(t.id, maker.id, maker.price, traded)], m);
        trades := trades + [Trade(t.id, maker.id, maker.price, traded)];
        left := left - traded;
      }
    }

    method MatchAgainst(side: Side, t: Taker, quantity: Quantity) returns (trades: seq<Trade>, left: Quantity)
      requires Valid()
      modifies this
      ensures Valid()
      ensures MatchOutcome(trades, SideOf(Book(), side), left) == Match(t, old(SideOf(Book(), side)), quantity)
      ensures SideOf(Book(), Opposite(side)) == old(SideOf(Book(), Opposite(side)))
    {
      hide Match, BookOk, IndexAgrees, Flatten, SortedMap, Grouped;
      trades, left := [], quantity;
      assert After([], Match(t, SideOf(Book(), side), quantity)) == Match(t, SideOf(Book(), side), quantity);
      while left > 0 && Levels(side) != []
        invariant Valid()
        invariant Match(t, old(SideOf(Book(), side)), quantity) == After(trades, Match(t, SideOf(Book(), side), left))
        invariant SideOf(Book(), Opposite(side)) == old(SideOf(Book(), Opposite(side)))
        decreases left
      {
        var m := Levels(side);
        FlattenEmpty(m);
        if !Crosses(t, m[0].price) {
          break;
        }
        LevelPrices(m);
        FrontLevel(side, m, m[0].orders);
        ghost var b := Book();
        var kept, more, less := FillLevel(m[0].orders, t, left, side, Flatten(m[1..]), b);
        FrontLevel(side, m, kept);
        SetLevels(side, SetOrders(m, 0, kept));
        assert Book() == WithSide(b, side, kept + Flatten(m[1..]));
        AfterTwice(trades, more, Match(t, SideOf(Book(), side), less));
        trades, left := trades + more, less;
      }
      FlattenEmpty(Levels(side));
      MatchStops(t, SideOf(Book(), side), left);
      assert trades + [] == trades;
    }

    method Rest(id: OrderId, side: Side, price: Price, quantity: Quantity)
      requires Valid() && quantity > 0 && !Contains(Book(), id)
      requires SideOf(Book(), Opposite(side)) != [] ==>
                 !Crosses(LimitTaker(id, side, price), SideOf(Book(), Opposite(side))[0].price)
      modifies this
      ensures Valid()
      ensures Book() == WithSide(old(Book()), side, Insert(SideOf(old(Book()), side), Order(id, side, price, quantity)))
    {
      hide BookOk, IndexAgrees, Flatten, Insert, SortedMap, Grouped, Contains;
      var o := Order(id, side, price, quantity);
      RestIndex(Book(), o, index);
      PushIsInsert(side, Levels(side), o);
      PushKeepsMap(side, Levels(side), o);
      SetLevels(side, Push(Levels(side), side, o));
      index := index[id := Locator(side, price, id)];
    }

    method AddLimit(id: OrderId, side: Side, price: Price, quantity: Quantity, tif: TimeInForce)
      returns (trades: seq<Trade>)
      requires Valid()
      modifies this
      ensures Valid()
      ensures Applied(Book(), trades) == BookSpec.AddLimit(Baseline, old(Book()), id, side, price, quantity, tif)
    {
      hide Match, BookOk, Flatten, Contains, Insert, MapsOk;
      if id in index {
        return [];
      }
      ghost var b := Book();
      ghost var t := LimitTaker(id, side, price);
      BookSides(b, Opposite(side));
      MatchLeavesNoCross(t, SideOf(b, Opposite(side)), quantity);
      var made, left := MatchAgainst(Opposite(side), LimitTaker(id, side, price), quantity);
      trades := made;
      if left > 0 && tif.GTC? {
        if Contains(Book(), id) { CrossAddsNoId(b, t, quantity, id); }
        Rest(id, side, price, left);
      }
    }

    method AddMarket(id: OrderId, side: Side, quantity: Quantity) returns (trades: seq<Trade>)
      requires Valid()
      modifies this
      ensures Valid()
      ensures Applied(Book(), trades) == BookSpec.AddMarket(old(Book()), id, side, quantity)
    {
      hide Match, BookOk, Flatten, Contains, MapsOk;
      if id in index {
        return [];
      }
      var made, left := MatchAgainst(Opposite(side), Taker(id, side, true, 0), quantity);
      trades := made;
    }

    /** The index entry is already gone; take the order out of its list and drop an empty level. */
    method EraseResting(loc: Locator, ghost id: OrderId, ghost was: map<OrderId, Locator>)
      requires MapsOk() && BookOk(Book()) && Contains(Book(), id)
      requires loc == Locator(Find(Book(), id).side, Find(Book(), id).price, id)
      requires index == was - {id} && IndexAgrees(was, Book())
      modifies this`bids, this`asks
      ensures Valid() && Book() == BookSpec.Cancel(old(Book()), id)
    {
      hide BookOk, IndexAgrees, Flatten, Contains, Find, SortedMap, Grouped;
      ghost var b := Book();
      var m := Levels(loc.side);
      ErasedLevel(b, loc.side, m, id);
      CancelKeepsBook(Baseline, b, id);
      CancelChangesOne(b, id);
      IndexAfterRemove(b, BookSpec.Cancel(b, id), id, was);
      var k := Slot(m, loc.side, loc.price);
      SetLevels(loc.side, SetOrders(m, k, Remove(m[k].orders, loc.it)));
    }

    method Cancel(id: OrderId) returns (ok: bool)
      requires Valid()
      modifies this
      ensures Valid() && ok == Contains(old(Book()), id) && Book() == BookSpec.Cancel(old(Book()), id)
    {
      hide BookOk, Flatten, Contains, Find, MapsOk, BookSpec.Cancel;
      if id !in index {
        CancelAbsent(Book(), id);
        return false;
      }
      ghost var was := index;
      var loc := index[id];
      index := index - {id};
      EraseResting(loc, id, was);
      return true;
    }

    method Modify(id: OrderId, price: Price, quantity: Quantity) returns (trades: seq<Trade>)
      requires Valid()
      modifies this
      ensures Valid()
      ensures Applied(Book(), trades) == BookSpec.Modify(Baseline, old(Book()), id, price, quantity)
    {
      hide BookOk, Flatten, Contains, SortedMap, Grouped, BookSpec.Cancel, BookSpec.AddLimit, Lookup, Resize;
      trades := [];
      if id !in index {
        return;
      }
      var loc := index[id];
      if quantity == 0 {
        var done := Cancel(id);
        return;
      }
      var m := Levels(loc.side);
      FoundInLevel(Book(), loc.side, m, id);
      var k := Slot(m, loc.side, loc.price);
      var resting := Lookup(m[k].orders, loc.it);
      if price == loc.price && quantity <= resting.quantity {
        ReduceInPlace(loc, id, quantity);
        return;
      }
      var done := Cancel(id);
      trades := AddLimit(id, loc.side, price, quantity, GTC);
    }

    method ReduceInPlace(loc: Locator, ghost id: OrderId, quantity: Quantity)
      requires Valid() && Contains(Book(), id) && quantity > 0
      requires loc == Locator(Find(Book(), id).side, Find(Book(), id).price, id)
      modifies this`bids, this`asks
      ensures Valid()
      ensures Book() == WithSide(old(Book()), loc.side, Resize(SideOf(old(Book()), loc.side), id, quantity))
    {
      hide BookOk, IndexAgrees, Flatten, Contains, Find, SortedMap, Grouped, Resize;
      ghost var b := Book();
      var m := Levels(loc.side);
      ResizedLevel(b, loc.side, m, id, quantity);
      IndexAfterResize(b, loc.side, id, quantity, index);
      var k := Slot(m, loc.side, loc.price);
      SetLevels(loc.side, m[k := Level(m[k].price, Resize(m[k].orders, loc.it, quantity))]);
    }

    method Apply(c: BookCommand) returns (trades: seq<Trade>)
      requires Valid()
      modifies this
      ensures Valid()
      ensures Applied(Book(), trades) == BookSpec.Apply(Baseline, old(Book()), c)
    {
      hide BookOk, IndexAgrees, MapsOk, Flatten;
      hide BookSpec.AddLimit, BookSpec.AddMarket, BookSpec.Modify, BookSpec.Cancel;
      match c
      case LimitCmd(id, side, price, quantity, tif) => trades := AddLimit(id, side, price, quantity, tif);
      case MarketCmd(id, side, quantity) => trades := AddMarket(id, side, quantity);
      case CancelCmd(id) =>
        var ok := Cancel(id);
        trades := [];
      case ModifyCmd(id, price, quantity) => trades := Modify(id, price, quantity);
    }

    // ---- Dry run -----------------------------------------------------------------------------

    static method CountLevel(level: seq<Order>, t: Taker, quantity: Quantity, ghost rest: seq<Order>)
      returns (left: Quantity, count: nat)
      requires forall i :: 0 <= i < |level| ==> level[i].quantity > 0 && Crosses(t, level[i].price)
      ensures Hits(t, level + rest, quantity) == count + Hits(t, rest, left)
    {
      hide Hits;
      left, count := quantity, 0;
      var i := 0;
      assert level[0..] == level;
      while left > 0 && i < |level|
        invariant 0 <= i <= |level|
        invariant Hits(t, level + rest, quantity) == count + Hits(t, level[i..] + rest, left)
      {
        CountMaker(t, level, i, rest, left);
        left := left - Min(left, level[i].quantity);
        count := count + 1;
        i := i + 1;
      }
      CountEnd(t, level, i, rest, left);
    }

    /** `count_matches`: how many trades a taker would make. */
    method FillCount(t: Taker, quantity: Quantity) returns (count: nat)
      requires Valid()
      ensures count == BookSpec.FillCount(Book(), t, quantity)
    {
      hide Hits, BookOk, IndexAgrees, SortedMap;
      var m := Levels(Opposite(t.side));
      BookSides(Book(), Opposite(t.side));
      count := 0;
      var left, i := quantity, 0;
      assert m[0..] == m;
      while left > 0 && i < |m| && Crosses(t, m[i].price)
        invariant 0 <= i <= |m|
        invariant Hits(t, Flatten(m), quantity) == count + Hits(t, Flatten(m[i..]), left)
        decreases |m| - i
      {
        LevelIsLive(m, i, Opposite(t.side));
        assert m[i..][0] == m[i] && m[i..][1..] == m[i + 1..];
        var less, hit := CountLevel(m[i].orders, t, left, Flatten(m[i + 1..]));
        left, count := less, count + hit;
        i := i + 1;
      }
      FlattenEmpty(m[i..]);
      ScanNothing(t, Flatten(m[i..]), left);
      HitsIs(t, Flatten(m), quantity);
    }

    // ---- Queries -----------------------------------------------------------------------------

    method ContainsOrder(id: OrderId) returns (found: bool)
      requires Valid()
      ensures found == Contains(Book(), id)
    {
      hide BookOk, MapsOk, Contains;
      found := id in index;
    }

    method BestPriceOf(side: Side) returns (p: Option<Price>)
      requires Valid()
      ensures p == BestPrice(SideOf(Book(), side))
    {
      hide BookOk, IndexAgrees, SortedMap, Flatten;
      FlattenEmpty(Levels(side));
      p := if Levels(side) == [] then None else Some(Levels(side)[0].price);
    }

    /** `level_quantity`. */
    static method LevelQuantity(level: seq<Order>) returns (total: nat)
      ensures total == TotalQuantity(level)
    {
      hide TotalQuantity;
      total := 0;
      var i := 0;
      assert level[0..] == level;
      while i < |level|
        invariant 0 <= i <= |level| && TotalQuantity(level) == total + TotalQuantity(level[i..])
      {
        TotalFrom(level, i);
        total := total + level[i].quantity;
        i := i + 1;
      }
      TotalFrom(level, i);
    }

    method QuantityAtPrice(side: Side, price: Price) returns (total: nat)
      requires Valid()
      ensures total == QuantityAt(SideOf(Book(), side), price)
    {
      hide BookOk, IndexAgrees, SortedMap, Flatten, QuantityAt, TotalQuantity, Slot;
      var m := Levels(side);
      QuantityAtMap(side, m, price);
      var k := Slot(m, side, price);
      if k < |m| && m[k].price == price {
        total := LevelQuantity(m[k].orders);
      } else {
        total := 0;
      }
    }

    /** `collect_levels`. */
    method LevelViews(side: Side) returns (views: seq<LevelView>)
      requires Valid()
      ensures views == BookSpec.Levels(SideOf(Book(), side))
    {
      hide BookOk, IndexAgrees, SortedMap, Grouped, Flatten, BookSpec.Levels, TotalQuantity;
      var m := Levels(side);
      views := [];
      var i := 0;
      assert m[0..] == m;
      assert [] + BookSpec.Levels(Flatten(m)) == BookSpec.Levels(Flatten(m));
      while i < |m|
        invariant 0 <= i <= |m|
        invariant BookSpec.Levels(Flatten(m)) == views + BookSpec.Levels(Flatten(m[i..]))
      {
        LevelsFrom(side, m, i);
        var total := LevelQuantity(m[i].orders);
        ghost var rest := BookSpec.Levels(Flatten(m[i + 1..]));
        assert views + ([LevelView(m[i].price, total)] + rest) == views + [LevelView(m[i].price, total)] + rest;
        views := views + [LevelView(m[i].price, total)];
        i := i + 1;
      }
      LevelsFrom(side, m, i);
      assert views + [] == views;
    }

    static method AppendLevel(out: seq<Order>, level: seq<Order>) returns (longer: seq<Order>)
      ensures longer == out + level
    {
      longer := out;
      var i := 0;
      while i < |level|
        invariant 0 <= i <= |level| && longer == out + level[..i]
      {
        longer := longer + [level[i]];
        i := i + 1;
      }
    }

    /** `append_orders`. */
    method AppendOrders(side: Side) returns (out: seq<Order>)
      requires Valid()
      ensures out == SideOf(Book(), side)
    {
      hide BookOk, IndexAgrees, SortedMap, Grouped, Flatten, BookSpec.Levels;
      var m := Levels(side);
      out := [];
      var i := 0;
      assert m[0..] == m;
      while i < |m|
        invariant 0 <= i <= |m| && Flatten(m) == out + Flatten(m[i..])
      {
        FlattenStep(m, i);
        ghost var rest := Flatten(m[i + 1..]);
        assert out + (m[i].orders + rest) == out + m[i].orders + rest;
        out := AppendLevel(out, m[i].orders);
        i := i + 1;
      }
      FlattenStep(m, i);
      assert out + [] == out;
    }

    method RestingOrders() returns (out: seq<Order>)
      requires Valid()
      ensures out == BookSpec.RestingOrders(Book())
    {
      hide BookOk, IndexAgrees, MapsOk, Flatten;
      var bidOrders := AppendOrders(Buy);
      var askOrders := AppendOrders(Sell);
      out := bidOrders + askOrders;
    }

    method Count() returns (n: nat)
      requires Valid()
      ensures n == OrderCount(Book())
    {
      hide MapsOk, Flatten, Contains;
      ghost var all := Book().bids + Book().asks;
      forall id ensures id in index.Keys <==> Has(all, id) {
        HasConcat(Book().bids, Book().asks, id);
        ContainsIs(Book(), id);
      }
      AllDistinct(Book());
      CountByIds(all, index.Keys);
      n := |index|;
      assert |index.Keys| == |index|;
    }
  }

  lemma {:induction false} ContainsIs(b: Book, id: OrderId)
    ensures Contains(b, id) <==> Has(b.bids, id) || Has(b.asks, id)
  {
  }
}
