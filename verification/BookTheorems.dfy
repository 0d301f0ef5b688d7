/** What the reference book guarantees: price-time matching, conservation, and reachable-state invariants. */
module BookTheorems {
  import opened Types
  import opened BookSpec

  // ---- Matching: which makers, how much ------------------------------------------------------

  function Traded(trades: seq<Trade>): nat {
    if trades == [] then 0 else trades[0].quantity + Traded(trades[1..])
  }

  /** A buyer pays at most the limit, a seller takes at least the limit. */
  predicate Acceptable(side: Side, limit: Price, price: Price) {
    match side
    case Buy => price <= limit
    case Sell => price >= limit
  }

  /** A market order takes any price. */
  predicate Willing(t: Taker, price: Price) {
    t.isMarket || Acceptable(t.side, t.limit, price)
  }

  /** Everything on the opposite side that the taker is allowed to hit. */
  function Eligible(t: Taker, makers: seq<Order>): nat {
    if makers == [] then 0
    else (if Willing(t, makers[0].price) then makers[0].quantity else 0) + Eligible(t, makers[1..])
  }

  /** Makers `[0, k)` trade in full, in order, at their own prices. */
  ghost predicate FullFills(t: Taker, makers: seq<Order>, trades: seq<Trade>, k: nat) {
    && k <= |makers| && k <= |trades|
    && forall i :: 0 <= i < k ==>
         && Willing(t, makers[i].price)
         && trades[i] == Trade(t.id, makers[i].id, makers[i].price, makers[i].quantity)
  }

  /**
   * `m` consumes exactly a prefix of `makers` in priority order: `k` full fills, then at most one
   * partial fill, and it stops only when filled or when no eligible maker is left.
   */
  ghost predicate ConsumesPrefix(t: Taker, makers: seq<Order>, quantity: Quantity, m: MatchOutcome) {
    var k := |makers| - |m.makers|;
    && 0 <= k
    && FullFills(t, makers, m.trades, k)
    && (if |m.trades| == k then
          && m.makers == makers[k..]
          && (m.remainder == 0 || k == |makers| || !Willing(t, makers[k].price))
        else
          && |m.trades| == k + 1 && k < |makers|
          && Willing(t, makers[k].price)
          && m.remainder == 0
          && 0 < m.trades[k].quantity < makers[k].quantity
          && m.trades[k] == Trade(t.id, makers[k].id, makers[k].price, m.trades[k].quantity)
          && m.makers == [makers[k].(quantity := makers[k].quantity - m.trades[k].quantity)] + makers[k + 1..])
  }

  lemma {:induction false} MatchConsumesPrefix(t: Taker, makers: seq<Order>, quantity: Quantity)
    ensures ConsumesPrefix(t, makers, quantity, Match(t, makers, quantity))
    decreases |makers|
  {
    if quantity != 0 && makers != [] && Crosses(t, makers[0].price) && makers[0].quantity <= quantity {
      var left := quantity - makers[0].quantity;
      MatchConsumesPrefix(t, makers[1..], left);
      PrefixGrows(t, makers, quantity, Match(t, makers[1..], left));
    }
  }

  lemma {:induction false} PrefixGrows(t: Taker, makers: seq<Order>, quantity: Quantity, rest: MatchOutcome)
    requires makers != [] && Crosses(t, makers[0].price) && makers[0].quantity <= quantity
    requires ConsumesPrefix(t, makers[1..], quantity - makers[0].quantity, rest)
    ensures var trade := Trade(t.id, makers[0].id, makers[0].price, makers[0].quantity);
            ConsumesPrefix(t, makers, quantity, rest.(trades := [trade] + rest.trades))
  {
    var k := |makers| - |rest.makers|;
    assert makers[1..][k - 1..] == makers[k..];
    if |rest.trades| != k - 1 {
      assert makers[1..][k..] == makers[k + 1..];
    }
  }

  lemma {:induction false} MatchConserves(t: Taker, makers: seq<Order>, quantity: Quantity)
    ensures var m := Match(t, makers, quantity);
            && quantity == Traded(m.trades) + m.remainder
            && TotalQuantity(makers) == TotalQuantity(m.makers) + Traded(m.trades)
    decreases |makers|
  {
    if quantity != 0 && makers != [] && Crosses(t, makers[0].price) {
      var m := Match(t, makers, quantity);
      if makers[0].quantity <= quantity {
        MatchConserves(t, makers[1..], quantity - makers[0].quantity);
        assert m.trades[1..] == Match(t, makers[1..], quantity - makers[0].quantity).trades;
      } else {
        assert m.makers[1..] == makers[1..];
        assert m.trades[1..] == [];
      }
    }
  }

  lemma {:induction false} NothingEligible(t: Taker, makers: seq<Order>)
    requires Sorted(Opposite(t.side), makers)
    requires makers != [] ==> !Crosses(t, makers[0].price)
    ensures Eligible(t, makers) == 0
    decreases |makers|
  {
    if |makers| > 1 {
      assert !Better(Opposite(t.side), makers[1].price, makers[0].price);
      NothingEligible(t, makers[1..]);
    }
  }

  /** The traded amount is the smaller of what was asked for and all the eligible liquidity. */
  lemma {:induction false} MatchTakesAllItCan(t: Taker, makers: seq<Order>, quantity: Quantity)
    requires Sorted(Opposite(t.side), makers)
    ensures Traded(Match(t, makers, quantity).trades) == Min(quantity, Eligible(t, makers))
    decreases |makers|
  {
    var m := Match(t, makers, quantity);
    if quantity == 0 || makers == [] {
    } else if !Crosses(t, makers[0].price) {
      NothingEligible(t, makers);
    } else if makers[0].quantity <= quantity {
      MatchTakesAllItCan(t, makers[1..], quantity - makers[0].quantity);
      assert m.trades[1..] == Match(t, makers[1..], quantity - makers[0].quantity).trades;
    } else {
      assert m.trades[1..] == [];
    }
  }

  // ---- Queues that lost orders or quantity ---------------------------------------------------

  /** `p` is `q` with some orders left out and some quantities changed; `f` says which are left. */
  ghost predicate Embeds(p: seq<Order>, q: seq<Order>, f: seq<nat>) {
    && |f| == |p|
    && (forall i :: 0 <= i < |f| ==> f[i] < |q| && SameSlot(p[i], q[f[i]]))
    && (forall i, j :: 0 <= i < j < |f| ==> f[i] < f[j])
  }

  predicate SameSlot(o: Order, was: Order) {
    o.id == was.id && o.price == was.price && o.side == was.side && o.quantity > 0
  }

  lemma {:induction false} EmbedKeepsSide(side: Side, p: seq<Order>, q: seq<Order>, f: seq<nat>)
    requires SideOk(side, q) && Embeds(p, q, f)
    ensures SideOk(side, p)
  {
    forall i, j | 0 <= i < j < |p| ensures !Better(side, p[j].price, p[i].price) && p[i].id != p[j].id {
      assert f[i] < f[j] && SameSlot(p[i], q[f[i]]) && SameSlot(p[j], q[f[j]]);
    }
  }

  lemma {:induction false} EmbedKeepsIds(p: seq<Order>, q: seq<Order>, f: seq<nat>, id: OrderId)
    requires Embeds(p, q, f) && Has(p, id)
    ensures Has(q, id)
  {
    var i :| 0 <= i < |p| && p[i].id == id;
    assert SameSlot(p[i], q[f[i]]);
  }

  lemma {:induction false} EmbedKeepsBest(side: Side, p: seq<Order>, q: seq<Order>, f: seq<nat>)
    requires SideOk(side, q) && Embeds(p, q, f) && p != []
    ensures q != [] && !Better(side, p[0].price, q[0].price)
  {
    assert SameSlot(p[0], q[f[0]]);
    if f[0] > 0 {
      assert !Better(side, q[f[0]].price, q[0].price);
    }
  }

  lemma {:induction false} EmbedIsNotLonger(p: seq<Order>, q: seq<Order>, f: seq<nat>, n: nat)
    requires Embeds(p, q, f) && n <= |f|
    ensures n > 0 ==> n <= f[n - 1] + 1
    decreases n
  {
    if n > 1 {
      EmbedIsNotLonger(p, q, f, n - 1);
      assert f[n - 2] < f[n - 1];
    }
  }

  lemma {:induction false} EmbedKeepsBook(st: Storage, b: Book, side: Side, p: seq<Order>, f: seq<nat>)
    requires BookOk(b) && Fits(st, b) && Embeds(p, SideOf(b, side), f)
    ensures BookOk(WithSide(b, side, p)) && Fits(st, WithSide(b, side, p))
  {
    hide SideOk, DisjointIds, Fits, Embeds;
    var q := SideOf(b, side);
    EmbedKeepsSide(side, p, q, f);
    EmbedKeepsApart(p, q, f, SideOf(b, Opposite(side)));
    EmbedFits(st, b, side, p, f);
    if p != [] {
      EmbedKeepsBest(side, p, q, f);
    }
  }

  lemma {:induction false} EmbedKeepsApart(p: seq<Order>, q: seq<Order>, f: seq<nat>, other: seq<Order>)
    requires Embeds(p, q, f)
    ensures DisjointIds(q, other) ==> DisjointIds(p, other)
    ensures DisjointIds(other, q) ==> DisjointIds(other, p)
  {
    assert forall i :: 0 <= i < |p| ==> SameSlot(p[i], q[f[i]]);
  }

  lemma {:induction false} EmbedFits(st: Storage, b: Book, side: Side, p: seq<Order>, f: seq<nat>)
    requires Fits(st, b) && Embeds(p, SideOf(b, side), f)
    ensures Fits(st, WithSide(b, side, p))
  {
    var q := SideOf(b, side);
    if p != [] {
      EmbedIsNotLonger(p, q, f, |f|);
    }
    assert forall i :: 0 <= i < |p| ==> SameSlot(p[i], q[f[i]]);
  }

  // ---- Side primitives -----------------------------------------------------------------------

  lemma {:induction false} MatchEmbeds(t: Taker, makers: seq<Order>, quantity: Quantity, side: Side)
    returns (f: seq<nat>)
    requires LiveOn(side, makers)
    ensures Embeds(Match(t, makers, quantity).makers, makers, f)
  {
    var m := Match(t, makers, quantity);
    MatchConsumesPrefix(t, makers, quantity);
    var k := |makers| - |m.makers|;
    f := seq(|m.makers|, i requires 0 <= i => i + k);
    forall i | 0 <= i < |f| ensures SameSlot(m.makers[i], makers[f[i]]) {
      if |m.trades| == k {
        assert m.makers[i] == makers[k..][i];
      } else if i > 0 {
        assert m.makers[i] == makers[k + 1..][i - 1];
      }
    }
  }

  lemma {:induction false} MatchLeavesNoCross(t: Taker, makers: seq<Order>, quantity: Quantity)
    ensures var m := Match(t, makers, quantity);
            m.remainder > 0 && m.makers != [] ==> !Willing(t, m.makers[0].price)
  {
    MatchConsumesPrefix(t, makers, quantity);
  }

  /** Insert is a split of the queue at the end of the order's own price level. */
  lemma {:induction false} InsertSplits(q: seq<Order>, o: Order) returns (k: nat)
    ensures k <= |q| && Insert(q, o) == q[..k] + [o] + q[k..]
    ensures forall i :: 0 <= i < k ==> !Better(o.side, o.price, q[i].price)
    ensures k < |q| ==> Better(o.side, o.price, q[k].price)
    decreases |q|
  {
    if q == [] || Better(o.side, o.price, q[0].price) {
      k := 0;
      assert q[..0] + [o] + q[0..] == [o] + q;
    } else {
      var j := InsertSplits(q[1..], o);
      k := j + 1;
      assert q[1..][..j] == q[1..k] && q[1..][j..] == q[k..];
      assert [q[0]] + q[1..k] == q[..k];
      assert Insert(q, o) == [q[0]] + (q[1..k] + [o] + q[k..]);
    }
  }

  /** `r` is `q` with `o` put in at position `k`. */
  ghost predicate PutAt(r: seq<Order>, q: seq<Order>, o: Order, k: nat) {
    && k <= |q| && |r| == |q| + 1 && r[k] == o
    && (forall i :: 0 <= i < k ==> r[i] == q[i])
    && (forall i :: k < i < |r| ==> r[i] == q[i - 1])
  }

  lemma {:induction false} PutAtKeepsSide(r: seq<Order>, q: seq<Order>, o: Order, k: nat)
    requires PutAt(r, q, o, k) && SideOk(o.side, q) && o.quantity > 0 && !Has(q, o.id)
    requires forall i :: 0 <= i < k ==> !Better(o.side, o.price, q[i].price)
    requires k < |q| ==> Better(o.side, o.price, q[k].price)
    ensures SideOk(o.side, r)
  {
    forall i, j | 0 <= i < j < |r| ensures !Better(o.side, r[j].price, r[i].price) && r[i].id != r[j].id {
      if i == k {
        assert r[j] == q[j - 1];
      } else if j == k {
        assert r[i] == q[i];
      } else {
        var i', j' := if i < k then i else i - 1, if j < k then j else j - 1;
        assert r[i] == q[i'] && r[j] == q[j'];
      }
    }
  }

  lemma {:induction false} InsertPuts(q: seq<Order>, o: Order) returns (k: nat)
    requires SideOk(o.side, q) && o.quantity > 0 && !Has(q, o.id)
    ensures PutAt(Insert(q, o), q, o, k) && SideOk(o.side, Insert(q, o))
    ensures k == 0 ==> q == [] || Better(o.side, o.price, q[0].price)
    ensures k > 0 ==> !Better(o.side, o.price, q[0].price)
  {
    k := InsertSplits(q, o);
    PutAtKeepsSide(Insert(q, o), q, o, k);
  }

  lemma {:induction false} FrontAndBack<T>(q: seq<T>, j: nat)
    requires j + 1 < |q|
    ensures [q[0]] + (q[1..][..j] + q[1..][j + 1..]) == q[..j + 1] + q[j + 2..]
  {
    assert q[1..][j + 1..] == q[j + 2..];
    assert [q[0]] + q[1..][..j] == q[..j + 1];
  }

  lemma {:induction false} RemoveSplits(q: seq<Order>, id: OrderId) returns (k: nat)
    requires Has(q, id)
    ensures k < |q| && q[k].id == id && Remove(q, id) == q[..k] + q[k + 1..]
    ensures forall i :: 0 <= i < k ==> q[i].id != id
    ensures Lookup(q, id) == q[k]
    decreases |q|
  {
    if q[0].id == id {
      k := 0;
    } else {
      assert Has(q[1..], id) by {
        var i :| 0 <= i < |q| && q[i].id == id;
        assert q[1..][i - 1].id == id;
      }
      var j := RemoveSplits(q[1..], id);
      k := j + 1;
      FrontAndBack(q, j);
    }
  }

  lemma {:induction false} ResizeAt(q: seq<Order>, id: OrderId, n: Quantity, k: nat)
    requires k < |q| && q[k].id == id && forall i :: 0 <= i < k ==> q[i].id != id
    ensures Resize(q, id, n) == q[k := q[k].(quantity := n)]
    decreases |q|
  {
    if k > 0 {
      ResizeAt(q[1..], id, n, k - 1);
      assert [q[0]] + q[1..][k - 1 := q[k].(quantity := n)] == q[k := q[k].(quantity := n)];
    } else {
      assert [q[0].(quantity := n)] + q[1..] == q[0 := q[0].(quantity := n)];
    }
  }

  lemma {:induction false} RemoveAbsent(q: seq<Order>, id: OrderId)
    requires !Has(q, id)
    ensures Remove(q, id) == q
    decreases |q|
  {
    if q != [] {
      assert q[0].id != id;
      assert !Has(q[1..], id) by {
        forall i | 0 <= i < |q[1..]| ensures q[1..][i].id != id { assert q[1..][i] == q[i + 1]; }
      }
      RemoveAbsent(q[1..], id);
    }
  }

  lemma {:induction false} SkipEmbeds(q: seq<Order>, k: nat, side: Side) returns (f: seq<nat>)
    requires LiveOn(side, q) && k < |q|
    ensures Embeds(q[..k] + q[k + 1..], q, f)
  {
    f := seq(|q| - 1, i requires 0 <= i => if i < k then i else i + 1);
  }

  lemma {:induction false} RemoveEmbeds(q: seq<Order>, id: OrderId, side: Side) returns (f: seq<nat>)
    requires LiveOn(side, q) && Has(q, id)
    ensures Embeds(Remove(q, id), q, f) && |Remove(q, id)| == |q| - 1
  {
    var k := RemoveSplits(q, id);
    f := SkipEmbeds(q, k, side);
  }

  lemma {:induction false} ResizeEmbeds(q: seq<Order>, id: OrderId, n: Quantity, side: Side) returns (f: seq<nat>)
    requires LiveOn(side, q) && Has(q, id) && n > 0
    ensures Embeds(Resize(q, id, n), q, f)
  {
    var k := RemoveSplits(q, id);
    ResizeAt(q, id, n, k);
    f := seq(|q|, i requires 0 <= i => i);
  }

  lemma {:induction false} CountByIds(q: seq<Order>, ids: set<OrderId>)
    requires DistinctIds(q) && forall id :: id in ids <==> Has(q, id)
    ensures |q| == |ids|
    decreases |q|
  {
    if q == [] {
      assert ids == {};
    } else {
      assert q[0].id in ids;
      var rest := ids - {q[0].id};
      forall id ensures id in rest <==> Has(q[1..], id) {
        if Has(q, id) && id != q[0].id {
          var i :| 0 <= i < |q| && q[i].id == id;
          assert q[1..][i - 1].id == id;
        }
        if Has(q[1..], id) {
          var i :| 0 <= i < |q[1..]| && q[1..][i].id == id;
          assert q[i + 1].id == id;
        }
      }
      CountByIds(q[1..], rest);
    }
  }

  // ---- Book invariants -----------------------------------------------------------------------

  lemma {:induction false} HasConcat(a: seq<Order>, b: seq<Order>, id: OrderId)
    ensures Has(a + b, id) <==> Has(a, id) || Has(b, id)
  {
    var q := a + b;
    if Has(a, id) {
      var i :| 0 <= i < |a| && a[i].id == id;
      assert q[i].id == id;
    }
    if Has(b, id) {
      var i :| 0 <= i < |b| && b[i].id == id;
      assert q[|a| + i].id == id;
    }
    if Has(q, id) {
      var i :| 0 <= i < |q| && q[i].id == id;
      if i < |a| { assert a[i].id == id; } else { assert b[i - |a|].id == id; }
    }
  }

  lemma {:induction false} AllDistinct(b: Book)
    requires BookOk(b)
    ensures DistinctIds(b.bids + b.asks)
  {
  }

  /** What a storage can hold at all. */
  ghost predicate Fits(st: Storage, b: Book) {
    match st
    case Baseline => true
    case Intrusive(capacity) => OrderCount(b) <= capacity
    case Contiguous(_, _) =>
      && (forall i :: 0 <= i < |b.bids| ==> InBand(st, b.bids[i].price))
      && (forall i :: 0 <= i < |b.asks| ==> InBand(st, b.asks[i].price))
  }

  lemma {:induction false} EmptyFits(st: Storage)
    ensures BookOk(EMPTY_BOOK) && Fits(st, EMPTY_BOOK)
  {
  }

  lemma {:induction false} CrossKeepsBook(st: Storage, b: Book, t: Taker, quantity: Quantity)
    requires BookOk(b) && Fits(st, b)
    ensures var m := MatchIn(b, t, quantity);
            var crossed := WithSide(b, Opposite(t.side), m.makers);
            BookOk(crossed) && Fits(st, crossed)
  {
    var f := MatchEmbeds(t, SideOf(b, Opposite(t.side)), quantity, Opposite(t.side));
    EmbedKeepsBook(st, b, Opposite(t.side), MatchIn(b, t, quantity).makers, f);
  }

  lemma {:induction false} CrossAddsNoId(b: Book, t: Taker, quantity: Quantity, id: OrderId)
    requires LiveOn(Opposite(t.side), SideOf(b, Opposite(t.side)))
    requires Contains(WithSide(b, Opposite(t.side), MatchIn(b, t, quantity).makers), id)
    ensures Contains(b, id)
  {
    var m := MatchIn(b, t, quantity);
    var opp := SideOf(b, Opposite(t.side));
    if Has(m.makers, id) {
      var f := MatchEmbeds(t, opp, quantity, Opposite(t.side));
      EmbedKeepsIds(m.makers, opp, f, id);
    }
  }

  lemma {:induction false} LimitKeepsBook(st: Storage, b: Book, id: OrderId, side: Side, price: Price,
                                          quantity: Quantity, tif: TimeInForce)
    requires BookOk(b) && Fits(st, b)
    ensures var a := AddLimit(st, b, id, side, price, quantity, tif); BookOk(a.book) && Fits(st, a.book)
  {
    hide Match, Insert, Sorted, DistinctIds, DisjointIds;
    if !Contains(b, id) && CanStoreLimit(st, b, id, side, price, quantity, tif) {
      var t := LimitTaker(id, side, price);
      var m := MatchIn(b, t, quantity);
      var crossed := WithSide(b, Opposite(side), m.makers);
      CrossKeepsBook(st, b, t, quantity);
      if m.remainder > 0 && tif.GTC? {
        var o := Order(id, side, price, m.remainder);
        MatchLeavesNoCross(t, SideOf(b, Opposite(side)), quantity);
        MatchConsumesPrefix(t, SideOf(b, Opposite(side)), quantity);
        assert !Contains(crossed, id) by {
          if Contains(crossed, id) { CrossAddsNoId(b, t, quantity, id); }
        }
        RestKeepsBook(st, crossed, o);
      }
    }
  }

  /** The storage has room for one more order at this price. */
  predicate HasRoom(st: Storage, b: Book, price: Price) {
    match st
    case Baseline => true
    case Intrusive(capacity) => OrderCount(b) < capacity
    case Contiguous(_, _) => InBand(st, price)
  }

  lemma {:induction false} RestKeepsBook(st: Storage, b: Book, o: Order)
    requires BookOk(b) && Fits(st, b) && o.quantity > 0 && !Contains(b, o.id) && HasRoom(st, b, o.price)
    requires SideOf(b, Opposite(o.side)) != [] ==>
               !Crosses(LimitTaker(o.id, o.side, o.price), SideOf(b, Opposite(o.side))[0].price)
    ensures var r := WithSide(b, o.side, Insert(SideOf(b, o.side), o)); BookOk(r) && Fits(st, r)
  {
    var q := SideOf(b, o.side);
    var k := InsertPuts(q, o);
    PutKeepsBook(st, b, o, Insert(q, o), k);
  }

  lemma {:induction false} PutKeepsBook(st: Storage, b: Book, o: Order, r: seq<Order>, k: nat)
    requires BookOk(b) && Fits(st, b) && !Contains(b, o.id) && HasRoom(st, b, o.price)
    requires PutAt(r, SideOf(b, o.side), o, k) && SideOk(o.side, r)
    requires SideOf(b, Opposite(o.side)) != [] ==>
               !Crosses(LimitTaker(o.id, o.side, o.price), SideOf(b, Opposite(o.side))[0].price)
    ensures BookOk(WithSide(b, o.side, r)) && Fits(st, WithSide(b, o.side, r))
  {
    var q := SideOf(b, o.side);
    forall i | 0 <= i < |r| ensures r[i] == o || (exists j :: 0 <= j < |q| && r[i] == q[j]) {
      if i < k {
        assert r[i] == q[i];
      } else if i > k {
        assert r[i] == q[i - 1];
      }
    }
  }

  lemma {:induction false} CancelKeepsBook(st: Storage, b: Book, id: OrderId)
    requires BookOk(b) && Fits(st, b)
    ensures BookOk(Cancel(b, id)) && Fits(st, Cancel(b, id))
  {
    if Has(b.bids, id) {
      var f := RemoveEmbeds(b.bids, id, Buy);
      EmbedKeepsBook(st, b, Buy, Remove(b.bids, id), f);
    } else if Has(b.asks, id) {
      var f := RemoveEmbeds(b.asks, id, Sell);
      EmbedKeepsBook(st, b, Sell, Remove(b.asks, id), f);
    } else {
      RemoveAbsent(b.asks, id);
    }
  }

  lemma {:induction false} RemovedIsGone(q: seq<Order>, id: OrderId)
    requires DistinctIds(q)
    ensures !Has(Remove(q, id), id)
  {
    if Has(q, id) {
      var k := RemoveSplits(q, id);
    } else {
      RemoveAbsent(q, id);
    }
  }

  lemma {:induction false} CancelRemoves(b: Book, id: OrderId)
    requires BookOk(b) && Contains(b, id)
    ensures !Contains(Cancel(b, id), id)
    ensures OrderCount(Cancel(b, id)) == OrderCount(b) - 1
    ensures SideOf(Cancel(b, id), Opposite(Find(b, id).side)) == SideOf(b, Opposite(Find(b, id).side))
    ensures var q := SideOf(b, Find(b, id).side);
            exists k :: 0 <= k < |q| && q[k].id == id && SideOf(Cancel(b, id), Find(b, id).side) == q[..k] + q[k + 1..]
  {
    FindOnSide(b, id);
    var o := Find(b, id);
    var k := RemoveSplits(SideOf(b, o.side), id);
    RemovedIsGone(SideOf(b, o.side), id);
  }

  lemma {:induction false} FindOnSide(b: Book, id: OrderId)
    requires BookOk(b) && Contains(b, id)
    ensures var o := Find(b, id);
            o.id == id && o.quantity > 0 && Has(SideOf(b, o.side), id) && Lookup(SideOf(b, o.side), id) == o
            && !Has(SideOf(b, Opposite(o.side)), id)
  {
    if Has(b.bids, id) {
      var k := RemoveSplits(b.bids, id);
    } else {
      var k := RemoveSplits(b.asks, id);
    }
  }

  /** An applied modify never drops the order: its cancel-and-re-add always passes the second gate. */
  lemma {:induction false} ModifyReAddIsAdmitted(st: Storage, b: Book, id: OrderId, price: Price, quantity: Quantity)
    requires BookOk(b) && Fits(st, b) && Contains(b, id)
    requires CanApplyModify(st, b, id, price, quantity)
    requires quantity > 0 && !ReducesInPlace(Find(b, id), price, quantity)
    ensures !Contains(Cancel(b, id), id)
    ensures CanStoreLimit(st, Cancel(b, id), id, Find(b, id).side, price, quantity, GTC)
  {
    CancelRemoves(b, id);
  }

  /** After an applied modify the order rests with what it did not trade, or has traded in full. */
  lemma {:induction false} ModifyNeverDrops(st: Storage, b: Book, id: OrderId, price: Price, quantity: Quantity)
    requires BookOk(b) && Fits(st, b) && Contains(b, id)
    requires CanApplyModify(st, b, id, price, quantity) && quantity > 0
    ensures var a := Modify(st, b, id, price, quantity);
            && Traded(a.trades) <= quantity
            && (Contains(a.book, id) <==> Traded(a.trades) < quantity)
            && (Contains(a.book, id) ==>
                  Find(a.book, id) == Order(id, Find(b, id).side, price, quantity - Traded(a.trades)))
  {
    var o := Find(b, id);
    FindOnSide(b, id);
    if ReducesInPlace(o, price, quantity) {
      ReducedIsFound(b, id, quantity);
    } else {
      ModifyReAddIsAdmitted(st, b, id, price, quantity);
      CancelKeepsBook(st, b, id);
      AdmittedLimitIsKept(st, Cancel(b, id), id, o.side, price, quantity, GTC);
    }
  }

  lemma {:induction false} ReducedIsFound(b: Book, id: OrderId, quantity: Quantity)
    requires BookOk(b) && Contains(b, id)
    ensures var o := Find(b, id);
            var r := WithSide(b, o.side, Resize(SideOf(b, o.side), id, quantity));
            Contains(r, id) && Find(r, id) == o.(quantity := quantity)
  {
    var o := Find(b, id);
    FindOnSide(b, id);
    var q := SideOf(b, o.side);
    var k := RemoveSplits(q, id);
    ResizeAt(q, id, quantity, k);
    FoundAt(WithSide(b, o.side, Resize(q, id, quantity)), o.side, k, id);
  }

  lemma {:induction false} FoundAt(b: Book, side: Side, k: nat, id: OrderId)
    requires k < |SideOf(b, side)| && SideOf(b, side)[k].id == id
    requires forall i :: 0 <= i < k ==> SideOf(b, side)[i].id != id
    requires !Has(SideOf(b, Opposite(side)), id)
    ensures Contains(b, id) && Find(b, id) == SideOf(b, side)[k]
  {
    var j := RemoveSplits(SideOf(b, side), id);
    assert j == k;
  }

  /** An admitted limit order trades, rests, or (IOC) discards; a GTC remainder is never lost. */
  lemma {:induction false} AdmittedLimitIsKept(st: Storage, b: Book, id: OrderId, side: Side, price: Price,
                                               quantity: Quantity, tif: TimeInForce)
    requires BookOk(b) && Fits(st, b) && !Contains(b, id)
    requires CanStoreLimit(st, b, id, side, price, quantity, tif)
    ensures var a := AddLimit(st, b, id, side, price, quantity, tif);
            && Traded(a.trades) <= quantity
            && (Contains(a.book, id) <==> tif.GTC? && Traded(a.trades) < quantity)
            && (Contains(a.book, id) ==> Find(a.book, id) == Order(id, side, price, quantity - Traded(a.trades)))
  {
    var t := LimitTaker(id, side, price);
    var m := MatchIn(b, t, quantity);
    MatchConserves(t, SideOf(b, Opposite(side)), quantity);
    var crossed := WithSide(b, Opposite(side), m.makers);
    assert !Contains(crossed, id) by {
      if Contains(crossed, id) { CrossAddsNoId(b, t, quantity, id); }
    }
    if m.remainder > 0 && tif.GTC? {
      var o := Order(id, side, price, m.remainder);
      var q := SideOf(crossed, side);
      var k := InsertPuts(q, o);
      FoundAt(WithSide(crossed, side, Insert(q, o)), side, k, id);
    }
  }

  lemma {:induction false} ModifyKeepsBook(st: Storage, b: Book, id: OrderId, price: Price, quantity: Quantity)
    requires BookOk(b) && Fits(st, b)
    ensures var a := Modify(st, b, id, price, quantity); BookOk(a.book) && Fits(st, a.book)
  {
    if Contains(b, id) && CanApplyModify(st, b, id, price, quantity) {
      CancelKeepsBook(st, b, id);
      if quantity > 0 {
        var o := Find(b, id);
        FindOnSide(b, id);
        if ReducesInPlace(o, price, quantity) {
          var f := ResizeEmbeds(SideOf(b, o.side), id, quantity, o.side);
          EmbedKeepsBook(st, b, o.side, Resize(SideOf(b, o.side), id, quantity), f);
        } else {
          LimitKeepsBook(st, Cancel(b, id), id, o.side, price, quantity, GTC);
        }
      }
    }
  }

  lemma {:induction false} StepKeepsBook(st: Storage, b: Book, c: BookCommand)
    requires BookOk(b) && Fits(st, b)
    ensures BookOk(Apply(st, b, c).book) && Fits(st, Apply(st, b, c).book)
  {
    match c
    case LimitCmd(id, side, price, quantity, tif) => LimitKeepsBook(st, b, id, side, price, quantity, tif);
    case MarketCmd(id, side, quantity) => CrossKeepsBook(st, b, Taker(id, side, true, 0), quantity);
    case CancelCmd(id) => CancelKeepsBook(st, b, id);
    case ModifyCmd(id, price, quantity) => ModifyKeepsBook(st, b, id, price, quantity);
  }

  /** Every reachable book is uncrossed, sorted, free of zero quantities, and within its storage. */
  lemma {:induction false} RunKeepsBook(st: Storage, b: Book, cs: seq<BookCommand>)
    requires BookOk(b) && Fits(st, b)
    ensures BookOk(Run(st, b, cs).0) && Fits(st, Run(st, b, cs).0)
    decreases |cs|
  {
    if cs != [] {
      StepKeepsBook(st, b, cs[0]);
      RunKeepsBook(st, Apply(st, b, cs[0]).book, cs[1..]);
    }
  }

  /** The run from command `i` on is that command, then the rest. */
  lemma {:induction false} RunUnrolls(st: Storage, b: Book, cs: seq<BookCommand>, i: nat)
    requires i <= |cs|
    ensures i == |cs| ==> Run(st, b, cs[i..]) == (b, [])
    ensures i < |cs| ==>
              var a := Apply(st, b, cs[i]);
              var rest := Run(st, a.book, cs[i + 1..]);
              Run(st, b, cs[i..]) == (rest.0, [a.trades] + rest.1)
  {
    hide Apply;
    if i < |cs| {
      assert cs[i..][0] == cs[i] && cs[i..][1..] == cs[i + 1..];
    }
  }

  // ---- Storages against the baseline ---------------------------------------------------------

  lemma {:induction false} RefusalChangesNothing(st: Storage, b: Book, c: BookCommand)
    requires Refuses(st, b, c)
    ensures Apply(st, b, c) == Applied(b, [])
  {
  }

  lemma {:induction false} StepAgreesWithBaseline(st: Storage, b: Book, c: BookCommand)
    requires BookOk(b) && Fits(st, b) && !Refuses(st, b, c)
    ensures Apply(st, b, c) == Apply(Baseline, b, c)
  {
    if c.ModifyCmd? && Contains(b, c.id) && c.quantity > 0
       && !ReducesInPlace(Find(b, c.id), c.price, c.quantity) {
      ModifyReAddIsAdmitted(st, b, c.id, c.price, c.quantity);
    }
  }

  /** While nothing is refused, a bounded storage is indistinguishable from the baseline. */
  lemma {:induction false} RunAgreesWithBaseline(st: Storage, b: Book, cs: seq<BookCommand>)
    requires BookOk(b) && Fits(st, b) && NeverRefuses(st, b, cs)
    ensures Run(st, b, cs) == Run(Baseline, b, cs)
    decreases |cs|
  {
    if cs != [] {
      StepAgreesWithBaseline(st, b, cs[0]);
      StepKeepsBook(st, b, cs[0]);
      RunAgreesWithBaseline(st, Apply(st, b, cs[0]).book, cs[1..]);
    }
  }

  // ---- Snapshot and restore ------------------------------------------------------------------

  datatype Restored = Restored(book: Book, trades: seq<Trade>, refused: bool)

  /** Re-add the first `n` listed orders as GTC limits into an empty book. */
  function Restore(st: Storage, orders: seq<Order>, n: nat): Restored
    requires n <= |orders|
  {
    if n == 0 then Restored(EMPTY_BOOK, [], false)
    else
      var p := Restore(st, orders, n - 1);
      var o := orders[n - 1];
      var a := AddLimit(st, p.book, o.id, o.side, o.price, o.quantity, GTC);
      Restored(a.book, p.trades + a.trades,
               p.refused || !CanStoreLimit(st, p.book, o.id, o.side, o.price, o.quantity, GTC))
  }

  /** The first `n` orders of the book in listed order. */
  function Front(b: Book, n: nat): Book
    requires n <= OrderCount(b)
  {
    if n <= |b.bids| then Book(b.bids[..n], []) else Book(b.bids, b.asks[..n - |b.bids|])
  }

  /** Appending a worst-priced order leaves the queue in front of it alone. */
  lemma {:induction false} InsertAtEnd(q: seq<Order>, o: Order)
    requires forall i :: 0 <= i < |q| ==> !Better(o.side, o.price, q[i].price)
    ensures Insert(q, o) == q + [o]
    decreases |q|
  {
    if q != [] {
      InsertAtEnd(q[1..], o);
      assert [q[0]] + (q[1..] + [o]) == q + [o];
    }
  }

  lemma {:induction false} FrontDoesNotCross(b: Book, n: nat, o: Order)
    requires BookOk(b) && n < OrderCount(b) && o == RestingOrders(b)[n]
    ensures var opp := SideOf(Front(b, n), Opposite(o.side));
            opp != [] ==> !Crosses(LimitTaker(o.id, o.side, o.price), opp[0].price)
    ensures !Contains(Front(b, n), o.id) && o.quantity > 0
  {
    if n >= |b.bids| && n - |b.bids| > 0 {
      assert !Better(Sell, b.asks[n - |b.bids|].price, b.asks[0].price);
    }
  }

  lemma {:induction false} FrontGrows(b: Book, n: nat, o: Order)
    requires BookOk(b) && n < OrderCount(b) && o == RestingOrders(b)[n]
    ensures Front(b, n + 1) == WithSide(Front(b, n), o.side, Insert(SideOf(Front(b, n), o.side), o))
  {
    InsertAtEnd(SideOf(Front(b, n), o.side), o);
    if n < |b.bids| {
      assert b.bids[..n] + [o] == b.bids[..n + 1];
    } else {
      var k := n - |b.bids|;
      assert b.asks[..k] + [o] == b.asks[..k + 1];
      if k == 0 {
        assert b.asks[..k] == [] && b.bids[..n] == b.bids;
      }
    }
  }

  lemma {:induction false} RestoreStep(st: Storage, b: Book, n: nat, o: Order)
    requires BookOk(b) && Fits(st, b) && n < OrderCount(b) && o == RestingOrders(b)[n]
    ensures CanStoreLimit(st, Front(b, n), o.id, o.side, o.price, o.quantity, GTC)
    ensures AddLimit(st, Front(b, n), o.id, o.side, o.price, o.quantity, GTC) == Applied(Front(b, n + 1), [])
  {
    FrontDoesNotCross(b, n, o);
    FrontGrows(b, n, o);
  }

  lemma {:induction false} RestoreFront(st: Storage, b: Book, n: nat)
    requires BookOk(b) && Fits(st, b) && n <= OrderCount(b)
    ensures Restore(st, RestingOrders(b), n) == Restored(Front(b, n), [], false)
  {
    hide BookOk, Fits, CanStoreLimit, AddLimit;
    if n > 0 {
      RestoreFront(st, b, n - 1);
      RestoreStep(st, b, n - 1, RestingOrders(b)[n - 1]);
    }
  }

  lemma {:induction false} FrontIsAll(b: Book)
    ensures Front(b, OrderCount(b)) == b
  {
    assert b.bids[..|b.bids|] == b.bids && b.asks[..|b.asks|] == b.asks;
  }

  /** Re-adding the resting orders in listed order rebuilds the book: no trade, no refusal. */
  lemma {:induction false} RestoreRebuilds(st: Storage, b: Book)
    requires BookOk(b) && Fits(st, b)
    ensures Restore(st, RestingOrders(b), OrderCount(b)) == Restored(b, [], false)
  {
    FrontIsAll(b);
    RestoreFront(st, b, OrderCount(b));
  }
}
