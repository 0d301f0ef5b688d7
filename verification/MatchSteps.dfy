/** Steps of the reference match that every storage's loops take, and how a dry run sees them. */
module MatchSteps {
  import opened Types
  import opened BookSpec
  import opened BookTheorems

  /** The side after its front maker gave up `traded`. */
  function FrontHit(q: seq<Order>, traded: Quantity): seq<Order>
    requires q != [] && traded <= q[0].quantity
  {
    if traded == q[0].quantity then q[1..] else [q[0].(quantity := q[0].quantity - traded)] + q[1..]
  }

  lemma {:induction false} BookSides(b: Book, side: Side)
    requires BookOk(b)
    ensures SideOk(side, SideOf(b, side)) && DisjointIds(b.bids, b.asks)
  {
  }

  lemma {:induction false} FrontHitMatches(t: Taker, q: seq<Order>, quantity: Quantity)
    requires q != [] && quantity > 0 && q[0].quantity > 0 && Crosses(t, q[0].price)
    ensures var traded := Min(quantity, q[0].quantity);
            Match(t, q, quantity)
            == After([Trade(t.id, q[0].id, q[0].price, traded)], Match(t, FrontHit(q, traded), quantity - traded))
  {
  }

  lemma {:induction false} FrontHitKeepsBook(b: Book, side: Side, traded: Quantity)
    requires BookOk(b) && SideOf(b, side) != [] && 0 < traded <= SideOf(b, side)[0].quantity
    ensures BookOk(WithSide(b, side, FrontHit(SideOf(b, side), traded)))
  {
    hide BookOk;
    var q := SideOf(b, side);
    var p := FrontHit(q, traded);
    var f: seq<nat>;
    BookSides(b, side);
    if traded == q[0].quantity {
      f := seq(|p|, i requires 0 <= i => i + 1);
    } else {
      f := seq(|p|, i requires 0 <= i => i);
    }
    EmbedKeepsBook(Baseline, b, side, p, f);
  }

  lemma {:induction false} HitPart(l: seq<Order>, rest: seq<Order>, traded: Quantity)
    requires l != [] && traded <= l[0].quantity
    ensures FrontHit(l + rest, traded)
            == (if traded == l[0].quantity then l[1..]
                else l[0 := l[0].(quantity := l[0].quantity - traded)]) + rest
  {
    assert (l + rest)[1..] == l[1..] + rest;
    var o := l[0].(quantity := l[0].quantity - traded);
    assert l[0 := o] == [o] + l[1..];
  }

  lemma {:induction false} FillStep(t: Taker, o: Order, rest: seq<Order>, quantity: Quantity)
    requires quantity > 0 && o.quantity > 0 && Crosses(t, o.price)
    ensures var traded := Min(quantity, o.quantity);
            var kept := if traded == o.quantity then [] else [o.(quantity := o.quantity - traded)];
            Match(t, [o] + rest, quantity)
            == After([Trade(t.id, o.id, o.price, traded)], Match(t, kept + rest, quantity - traded))
  {
    assert ([o] + rest)[1..] == rest;
    assert [] + rest == rest;
  }

  lemma {:induction false} MatchStops(t: Taker, q: seq<Order>, quantity: Quantity)
    requires quantity == 0 || q == [] || !Crosses(t, q[0].price)
    ensures Match(t, q, quantity) == MatchOutcome([], q, quantity)
  {
  }

  lemma {:induction false} AfterTwice(a: seq<Trade>, b: seq<Trade>, m: MatchOutcome)
    ensures After(a, After(b, m)) == After(a + b, m)
    ensures After([], m) == m
            && After(a, MatchOutcome([], m.makers, m.remainder)) == MatchOutcome(a, m.makers, m.remainder)
  {
    assert a + (b + m.trades) == a + b + m.trades;
    assert [] + m.trades == m.trades;
  }

  /** How a dry run sees a match: what it leaves, and how many makers it hits. */
  function Remainder(t: Taker, q: seq<Order>, quantity: Quantity): nat {
    Match(t, q, quantity).remainder
  }

  function Hits(t: Taker, q: seq<Order>, quantity: Quantity): nat {
    |Match(t, q, quantity).trades|
  }

  /** How many makers a taker would use up completely. */
  function Freed(t: Taker, q: seq<Order>, quantity: Quantity): nat {
    MatchConsumesPrefix(t, q, quantity);
    |q| - |Match(t, q, quantity).makers|
  }

  lemma {:induction false} FreedMaker(t: Taker, o: Order, rest: seq<Order>, quantity: Quantity)
    requires quantity > 0 && o.quantity > 0 && Crosses(t, o.price)
    ensures Freed(t, [o] + rest, quantity)
            == (if o.quantity <= quantity then 1 else 0) + Freed(t, rest, quantity - Min(quantity, o.quantity))
  {
    assert ([o] + rest)[1..] == rest;
  }

  lemma {:induction false} FreedNothing(t: Taker, q: seq<Order>, quantity: Quantity)
    requires quantity == 0 || q == [] || !Crosses(t, q[0].price)
    ensures Freed(t, q, quantity) == 0
  {
  }

  lemma {:induction false} FreedIs(t: Taker, q: seq<Order>, quantity: Quantity)
    ensures Freed(t, q, quantity) == |q| - |Match(t, q, quantity).makers|
  {
  }

  lemma {:induction false} ScanMaker(t: Taker, o: Order, rest: seq<Order>, quantity: Quantity)
    requires quantity > 0 && o.quantity > 0 && Crosses(t, o.price)
    ensures var left := quantity - Min(quantity, o.quantity);
            && Remainder(t, [o] + rest, quantity) == Remainder(t, rest, left)
            && Hits(t, [o] + rest, quantity) == 1 + Hits(t, rest, left)
  {
    assert ([o] + rest)[1..] == rest;
  }

  lemma {:induction false} ScanNothing(t: Taker, q: seq<Order>, quantity: Quantity)
    requires quantity == 0 || q == [] || !Crosses(t, q[0].price)
    ensures Remainder(t, q, quantity) == quantity && Hits(t, q, quantity) == 0
  {
  }

  /** A dry run over `q` that is `left` short with `p` still ahead has seen `count` makers and used up `freed`. */
  ghost predicate Scanned(t: Taker, q: seq<Order>, quantity: Quantity, p: seq<Order>, left: Quantity, freed: nat,
                          count: nat) {
    && Remainder(t, q, quantity) == Remainder(t, p, left)
    && Freed(t, q, quantity) == freed + Freed(t, p, left)
    && Hits(t, q, quantity) == count + Hits(t, p, left)
  }

  lemma {:induction false} ScannedStep(t: Taker, q: seq<Order>, quantity: Quantity, v: seq<Order>, k: nat,
                                       rest: seq<Order>,
                                       left: Quantity, freed: nat, count: nat)
    requires k < |v| && left > 0 && v[k].quantity > 0 && Crosses(t, v[k].price)
    requires Scanned(t, q, quantity, v[k..] + rest, left, freed, count)
    ensures Scanned(t, q, quantity, v[k + 1..] + rest, left - Min(left, v[k].quantity),
                    freed + (if v[k].quantity <= left then 1 else 0), count + 1)
  {
    hide Remainder, Freed, Hits;
    assert v[k..] + rest == [v[k]] + (v[k + 1..] + rest);
    ScanMaker(t, v[k], v[k + 1..] + rest, left);
    FreedMaker(t, v[k], v[k + 1..] + rest, left);
  }

  lemma {:induction false} ScannedJoin(t: Taker, q: seq<Order>, quantity: Quantity, p: seq<Order>, left: Quantity,
                                       freed: nat,
                                       count: nat, rest: seq<Order>, less: Quantity, gone: nat, seen: nat)
    requires Scanned(t, q, quantity, p, left, freed, count) && Scanned(t, p, left, rest, less, gone, seen)
    ensures Scanned(t, q, quantity, rest, less, freed + gone, count + seen)
  {
    hide Remainder, Freed, Hits;
  }

  lemma {:induction false} ScannedEnd(t: Taker, q: seq<Order>, quantity: Quantity, v: seq<Order>, k: nat,
                                      rest: seq<Order>,
                                      left: Quantity, freed: nat, count: nat)
    requires k <= |v| && (left == 0 || k == |v|) && Scanned(t, q, quantity, v[k..] + rest, left, freed, count)
    ensures Scanned(t, q, quantity, rest, left, freed, count)
  {
    hide Remainder, Freed, Hits;
    if left == 0 {
      ScanNothing(t, v[k..] + rest, left);
      FreedNothing(t, v[k..] + rest, left);
      ScanNothing(t, rest, left);
      FreedNothing(t, rest, left);
    } else {
      assert v[k..] + rest == rest;
    }
  }

  lemma {:induction false} ScannedStops(t: Taker, q: seq<Order>, quantity: Quantity, p: seq<Order>, left: Quantity,
                                        freed: nat,
                                        count: nat)
    requires Scanned(t, q, quantity, p, left, freed, count) && (left == 0 || p == [] || !Crosses(t, p[0].price))
    ensures left == Match(t, q, quantity).remainder && count == |Match(t, q, quantity).trades|
    ensures freed == |q| - |Match(t, q, quantity).makers|
  {
    hide Remainder, Freed, Hits;
    ScanNothing(t, p, left);
    FreedNothing(t, p, left);
    RemainderIs(t, q, quantity);
    HitsIs(t, q, quantity);
    FreedIs(t, q, quantity);
  }

  lemma {:induction false} ScannedNone(t: Taker, q: seq<Order>, quantity: Quantity)
    ensures Scanned(t, q, quantity, q, quantity, 0, 0)
  {
    hide Remainder, Freed, Hits;
  }

  lemma {:induction false} RemainderIs(t: Taker, q: seq<Order>, quantity: Quantity)
    ensures Remainder(t, q, quantity) == Match(t, q, quantity).remainder
  {
  }

  lemma {:induction false} HitsIs(t: Taker, q: seq<Order>, quantity: Quantity)
    ensures Hits(t, q, quantity) == |Match(t, q, quantity).trades|
  {
  }

  lemma {:induction false} CancelAbsent(b: Book, id: OrderId)
    requires !Contains(b, id)
    ensures Cancel(b, id) == b
  {
    RemoveAbsent(b.asks, id);
  }
}
