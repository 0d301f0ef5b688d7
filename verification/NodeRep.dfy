/** The whole linked representation: chains, pools and index together, and how each update keeps them. */
module NodeRep {
  import opened Types
  import opened BookSpec
  import opened PriceMap
  import opened NodeChains

  // ---- Representation invariant --------------------------------------------------------------

  function At(r: Rep, n: nat): Order {
    OrderAt(r.nodes, r.orders, n)
  }

  /** Every node of the chain is live, carries a live order, and that order belongs to this level. */
  ghost predicate Homed(r: Rep, c: seq<nat>, side: Side, price: Price) {
    forall k :: 0 <= k < |c| ==>
      c[k] in r.nodes && r.nodes[c[k]].order in r.orders && At(r, c[k]).side == side && At(r, c[k]).price == price
  }

  ghost predicate SideChains(r: Rep, ch: Chains, side: Side) {
    && |ChainsOf(ch, side)| == |LevelsOf(r, side)|
    && forall i :: 0 <= i < |LevelsOf(r, side)| ==>
         && ChainOk(r.nodes, LevelsOf(r, side)[i], ChainsOf(ch, side)[i])
         && Homed(r, ChainsOf(ch, side)[i], side, LevelsOf(r, side)[i].price)
  }

  ghost predicate SortedLevels(side: Side, ls: seq<NodeLevel>) {
    forall i, j :: 0 <= i < j < |ls| ==> Better(side, ls[i].price, ls[j].price)
  }

  /** Node slots, order slots and index entries correspond one to one. */
  ghost predicate Bijective(r: Rep) {
    && (forall n :: n in r.nodes ==>
          && r.nodes[n].order in r.orders
          && At(r, n).id in r.index && r.index[At(r, n).id] == Locator(At(r, n).side, At(r, n).price, n))
    && (forall id :: id in r.index ==> r.index[id].node in r.nodes && At(r, r.index[id].node).id == id)
    && (forall o :: o in r.orders ==>
          && r.orders[o].id in r.index && r.index[r.orders[o].id].node in r.nodes
          && r.nodes[r.index[r.orders[o].id].node].order == o)
  }

  ghost predicate InChain(cs: seq<seq<nat>>, n: nat) {
    exists i :: 0 <= i < |cs| && n in cs[i]
  }

  /** No live node is outside the chains. */
  ghost predicate Covered(r: Rep, ch: Chains) {
    forall n :: n in r.nodes ==> InChain(ChainsOf(ch, At(r, n).side), n)
  }

  ghost predicate RepOk(r: Rep, ch: Chains) {
    && SideChains(r, ch, Buy) && SideChains(r, ch, Sell)
    && SortedLevels(Buy, r.bids) && SortedLevels(Sell, r.asks)
    && Bijective(r) && Covered(r, ch)
  }

  /** `lower_bound` on the levels themselves. */
  function LevelSlot(ls: seq<NodeLevel>, side: Side, price: Price): (k: nat)
    ensures k <= |ls|
    ensures forall i :: 0 <= i < k ==> Better(side, ls[i].price, price)
    ensures k < |ls| ==> !Better(side, ls[k].price, price)
  {
    if ls == [] || !Better(side, ls[0].price, price) then 0 else 1 + LevelSlot(ls[1..], side, price)
  }

  /** The price map the chains stand for. */
  function MapView(r: Rep, ch: Chains, side: Side): LevelMap
    requires |ChainsOf(ch, side)| == |LevelsOf(r, side)|
  {
    seq(|LevelsOf(r, side)|, i requires 0 <= i < |LevelsOf(r, side)| =>
      Level(LevelsOf(r, side)[i].price, View(r.nodes, r.orders, ChainsOf(ch, side)[i])))
  }

  /** A node is in one place only. */
  lemma {:induction false} OneHome(r: Rep, ch: Chains, side: Side, i: nat, k: nat, side': Side, i': nat, k': nat)
    requires RepOk(r, ch) && i < |ChainsOf(ch, side)| && k < |ChainsOf(ch, side)[i]|
    requires i' < |ChainsOf(ch, side')| && k' < |ChainsOf(ch, side')[i']|
    requires ChainsOf(ch, side)[i][k] == ChainsOf(ch, side')[i'][k']
    ensures side == side' && i == i' && k == k'
  {
    hide Bijective, Covered, Linked;
    assert Homed(r, ChainsOf(ch, side)[i], side, LevelsOf(r, side)[i].price);
    assert Homed(r, ChainsOf(ch, side')[i'], side', LevelsOf(r, side')[i'].price);
    assert side == side';
    assert i == i';
    DifferAt(ChainsOf(ch, side)[i], k, k');
  }

  // ---- Frames --------------------------------------------------------------------------------

  /** `u` holds the same orders at every node of `c`. */
  ghost predicate SameAlong(r: Rep, u: Rep, c: seq<nat>) {
    forall k :: 0 <= k < |c| ==>
      c[k] in r.nodes && c[k] in u.nodes && u.nodes[c[k]] == r.nodes[c[k]]
      && (r.nodes[c[k]].order in r.orders ==>
            r.nodes[c[k]].order in u.orders && u.orders[r.nodes[c[k]].order] == r.orders[r.nodes[c[k]].order])
  }

  lemma {:induction false} SameAlongKeeps(r: Rep, u: Rep, l: NodeLevel, c: seq<nat>, side: Side)
    requires ChainOk(r.nodes, l, c) && Homed(r, c, side, l.price) && SameAlong(r, u, c)
    ensures ChainOk(u.nodes, l, c) && Homed(u, c, side, l.price)
    ensures View(u.nodes, u.orders, c) == View(r.nodes, r.orders, c)
  {
    hide ChainOk;
    ChainFrame(r.nodes, u.nodes, l, c);
  }

  // ---- Changing a quantity -------------------------------------------------------------------

  /** The order at slot `o` with another quantity. */
  function Written(r: Rep, o: nat, quantity: Quantity): Rep
    requires o in r.orders
  {
    r.(orders := r.orders[o := r.orders[o].(quantity := quantity)])
  }

  lemma {:induction false} WrittenAt(r: Rep, o: nat, quantity: Quantity, n: nat)
    requires o in r.orders
    ensures At(Written(r, o, quantity), n)
            == if n in r.nodes && r.nodes[n].order == o then At(r, n).(quantity := quantity) else At(r, n)
  {
  }

  lemma {:induction false} WrittenOk(r: Rep, ch: Chains, o: nat, quantity: Quantity)
    requires RepOk(r, ch) && o in r.orders
    ensures RepOk(Written(r, o, quantity), ch)
  {
    hide ChainOk, SortedLevels, InChain, At;
    var u := Written(r, o, quantity);
    forall n
      ensures At(u, n).id == At(r, n).id && At(u, n).side == At(r, n).side && At(u, n).price == At(r, n).price
    {
      WrittenAt(r, o, quantity, n);
    }
    assert Bijective(u) by { hide SideChains, Covered; }
    assert Covered(u, ch) by { hide SideChains, Bijective; }
    WrittenSide(r, ch, o, quantity, Buy);
    WrittenSide(r, ch, o, quantity, Sell);
  }

  lemma {:induction false} WrittenSide(r: Rep, ch: Chains, o: nat, quantity: Quantity, side: Side)
    requires SideChains(r, ch, side) && o in r.orders
    ensures SideChains(Written(r, o, quantity), ch, side)
  {
    hide ChainOk;
    var u := Written(r, o, quantity);
    forall i | 0 <= i < |LevelsOf(r, side)|
      ensures Homed(u, ChainsOf(ch, side)[i], side, LevelsOf(r, side)[i].price)
    {
      assert Homed(r, ChainsOf(ch, side)[i], side, LevelsOf(r, side)[i].price);
    }
  }

  /** Only the written order changes in the view. */
  lemma {:induction false} WrittenView(r: Rep, ch: Chains, side: Side, i: nat, k: nat, quantity: Quantity)
    requires RepOk(r, ch) && i < |ChainsOf(ch, side)| && k < |ChainsOf(ch, side)[i]|
    ensures var n := ChainsOf(ch, side)[i][k];
            && n in r.nodes && r.nodes[n].order in r.orders
            && |ChainsOf(ch, side)| == |LevelsOf(r, side)|
            && |ChainsOf(ch, Opposite(side))| == |LevelsOf(r, Opposite(side))|
            && (var u := Written(r, r.nodes[n].order, quantity);
                var m := MapView(r, ch, side);
                && k < |m[i].orders|
                && MapView(u, ch, side)
                   == m[i := Level(m[i].price, m[i].orders[k := m[i].orders[k].(quantity := quantity)])]
                && MapView(u, ch, Opposite(side)) == MapView(r, ch, Opposite(side)))
  {
    var n := ChainsOf(ch, side)[i][k];
    assert Homed(r, ChainsOf(ch, side)[i], side, LevelsOf(r, side)[i].price);
    var o := r.nodes[n].order;
    var u := Written(r, o, quantity);
    forall s: Side, j, q | 0 <= j < |ChainsOf(ch, s)| && 0 <= q < |ChainsOf(ch, s)[j]|
      ensures At(u, ChainsOf(ch, s)[j][q])
              == if s == side && j == i && q == k then At(r, n).(quantity := quantity) else At(r, ChainsOf(ch, s)[j][q])
    {
      WrittenPlace(r, ch, side, i, k, s, j, q, quantity);
    }
    ViewsDiffer(r, u, ch, side, i, k, quantity);
  }

  lemma {:induction false} WrittenPlace(r: Rep, ch: Chains, side: Side, i: nat, k: nat, s: Side, j: nat, q: nat,
                                        quantity: Quantity)
    requires RepOk(r, ch) && i < |ChainsOf(ch, side)| && k < |ChainsOf(ch, side)[i]|
    requires j < |ChainsOf(ch, s)| && q < |ChainsOf(ch, s)[j]|
    requires ChainsOf(ch, side)[i][k] in r.nodes && r.nodes[ChainsOf(ch, side)[i][k]].order in r.orders
    ensures var n := ChainsOf(ch, side)[i][k];
            At(Written(r, r.nodes[n].order, quantity), ChainsOf(ch, s)[j][q])
            == if s == side && j == i && q == k then At(r, n).(quantity := quantity) else At(r, ChainsOf(ch, s)[j][q])
  {
    hide ChainOk, Covered;
    var n := ChainsOf(ch, side)[i][k];
    var m := ChainsOf(ch, s)[j][q];
    WrittenAt(r, r.nodes[n].order, quantity, m);
    assert Homed(r, ChainsOf(ch, s)[j], s, LevelsOf(r, s)[j].price);
    if m in r.nodes && r.nodes[m].order == r.nodes[n].order {
      assert At(r, m) == At(r, n);
      assert m == n;
      OneHome(r, ch, side, i, k, s, j, q);
    }
  }

  lemma {:induction false} ViewsDiffer(r: Rep, u: Rep, ch: Chains, side: Side, i: nat, k: nat, quantity: Quantity)
    requires |ChainsOf(ch, Buy)| == |LevelsOf(r, Buy)| && |ChainsOf(ch, Sell)| == |LevelsOf(r, Sell)|
    requires u.bids == r.bids && u.asks == r.asks
    requires i < |ChainsOf(ch, side)| && k < |ChainsOf(ch, side)[i]|
    requires forall s: Side, j, q :: 0 <= j < |ChainsOf(ch, s)| && 0 <= q < |ChainsOf(ch, s)[j]| ==>
               At(u, ChainsOf(ch, s)[j][q])
               == if s == side && j == i && q == k then At(r, ChainsOf(ch, side)[i][k]).(quantity := quantity)
                  else At(r, ChainsOf(ch, s)[j][q])
    ensures var m := MapView(r, ch, side);
            && k < |m[i].orders|
            && MapView(u, ch, side)
               == m[i := Level(m[i].price, m[i].orders[k := m[i].orders[k].(quantity := quantity)])]
            && MapView(u, ch, Opposite(side)) == MapView(r, ch, Opposite(side))
  {
    hide At;
    forall s: Side, j | 0 <= j < |ChainsOf(ch, s)|
      ensures MapView(u, ch, s)[j]
              == if s == side && j == i then
                   var l := MapView(r, ch, side)[i];
                   Level(l.price, l.orders[k := l.orders[k].(quantity := quantity)])
                 else MapView(r, ch, s)[j]
    {
      ViewIs(r, ch, s, j);
      ViewIs(u, ch, s, j);
      assert |MapView(u, ch, s)[j].orders| == |MapView(r, ch, s)[j].orders|;
    }
  }

  lemma {:induction false} ViewIs(r: Rep, ch: Chains, side: Side, i: nat)
    requires |ChainsOf(ch, side)| == |LevelsOf(r, side)| && i < |LevelsOf(r, side)|
    ensures MapView(r, ch, side)[i].price == LevelsOf(r, side)[i].price
    ensures |MapView(r, ch, side)[i].orders| == |ChainsOf(ch, side)[i]|
    ensures forall k :: 0 <= k < |ChainsOf(ch, side)[i]| ==>
              MapView(r, ch, side)[i].orders[k] == At(r, ChainsOf(ch, side)[i][k])
  {
  }

  // ---- Dropping a node -----------------------------------------------------------------------

  ghost predicate CanDrop(r: Rep, side: Side, i: nat, n: nat) {
    && i < |LevelsOf(r, side)| && LevelsOf(r, side)[i].size > 0
    && n in r.nodes && r.nodes[n].order in r.orders
    && (r.nodes[n].prev.Some? ==> r.nodes[n].prev.value in r.nodes)
    && (r.nodes[n].next.Some? ==> r.nodes[n].next.value in r.nodes)
  }

  /** Node `n` unlinked from its level, both its slots released, its index entry gone. */
  ghost function Dropped(r: Rep, side: Side, i: nat, n: nat): Rep
    requires CanDrop(r, side, i, n)
  {
    var ls := LevelsOf(r, side);
    WithLevels(r, side, ls[i := UnlinkLevel(ls[i], r.nodes[n])])
    .(nodes := UnlinkNode(r.nodes, n) - {n}, orders := r.orders - {r.nodes[n].order}, index := r.index - {At(r, n).id})
  }

  function DropFrom(ch: Chains, side: Side, i: nat, k: nat): Chains
    requires i < |ChainsOf(ch, side)| && k < |ChainsOf(ch, side)[i]|
  {
    WithChains(ch, side, ChainsOf(ch, side)[i := Cut(ChainsOf(ch, side)[i], k)])
  }

  lemma {:induction false} ChainedCanDrop(r: Rep, ch: Chains, side: Side, i: nat, k: nat)
    requires RepOk(r, ch) && i < |ChainsOf(ch, side)| && k < |ChainsOf(ch, side)[i]|
    ensures CanDrop(r, side, i, ChainsOf(ch, side)[i][k])
    ensures At(r, ChainsOf(ch, side)[i][k]).side == side
    ensures At(r, ChainsOf(ch, side)[i][k]).price == LevelsOf(r, side)[i].price
  {
    hide Bijective, Covered, SortedLevels, NoRepeat;
    var c := ChainsOf(ch, side)[i];
    assert ChainOk(r.nodes, LevelsOf(r, side)[i], c) && Homed(r, c, side, LevelsOf(r, side)[i].price);
    NeighboursLive(r.nodes, c, k);
  }

  /** Two nodes never share an order slot or an id. */
  lemma {:induction false} NodesDiffer(r: Rep, n: nat, m: nat)
    requires Bijective(r) && n in r.nodes && m in r.nodes && n != m
    ensures r.nodes[n].order != r.nodes[m].order && At(r, n).id != At(r, m).id
    ensures r.nodes[n].order in r.orders && r.nodes[m].order in r.orders
  {
  }

  lemma {:induction false} DroppedAt(r: Rep, side: Side, i: nat, n: nat, m: nat)
    requires CanDrop(r, side, i, n) && Bijective(r)
    ensures m in Dropped(r, side, i, n).nodes <==> m in r.nodes && m != n
    ensures m in r.nodes && m != n ==>
              var u := Dropped(r, side, i, n);
              u.nodes[m].order == r.nodes[m].order && u.nodes[m].order in u.orders && At(u, m) == At(r, m)
  {
    hide UnlinkNode, Bijective;
    UnlinkTouches(r.nodes, n, m);
    if m in r.nodes && m != n {
      NodesDiffer(r, n, m);
    }
  }

  lemma {:induction false} DroppedBijective(r: Rep, side: Side, i: nat, n: nat)
    requires CanDrop(r, side, i, n) && Bijective(r)
    ensures Bijective(Dropped(r, side, i, n))
  {
    hide UnlinkNode, At;
    var u := Dropped(r, side, i, n);
    forall m | m in u.nodes
      ensures u.nodes[m].order in u.orders
      ensures At(u, m).id in u.index && u.index[At(u, m).id] == Locator(At(u, m).side, At(u, m).price, m)
    {
      DroppedAt(r, side, i, n, m);
      NodesDiffer(r, n, m);
    }
    forall id | id in u.index ensures u.index[id].node in u.nodes && At(u, u.index[id].node).id == id {
      DroppedAt(r, side, i, n, r.index[id].node);
    }
    forall o | o in u.orders
      ensures u.orders[o].id in u.index && u.index[u.orders[o].id].node in u.nodes
              && u.nodes[u.index[u.orders[o].id].node].order == o
    {
      DroppedOrder(r, n, o);
      DroppedAt(r, side, i, n, r.index[r.orders[o].id].node);
    }
  }

  lemma {:induction false} DroppedOrder(r: Rep, n: nat, o: nat)
    requires Bijective(r) && n in r.nodes && o in r.orders && o != r.nodes[n].order
    ensures r.orders[o].id != At(r, n).id
    ensures r.orders[o].id in r.index && r.index[r.orders[o].id].node in r.nodes && r.index[r.orders[o].id].node != n
    ensures r.nodes[r.index[r.orders[o].id].node].order == o
  {
  }

  lemma {:induction false} DroppedCovered(r: Rep, ch: Chains, side: Side, i: nat, k: nat)
    requires RepOk(r, ch) && i < |ChainsOf(ch, side)| && k < |ChainsOf(ch, side)[i]|
    requires CanDrop(r, side, i, ChainsOf(ch, side)[i][k])
    ensures Covered(Dropped(r, side, i, ChainsOf(ch, side)[i][k]), DropFrom(ch, side, i, k))
  {
    hide SideChains, SortedLevels, Bijective, UnlinkNode, At;
    var n := ChainsOf(ch, side)[i][k];
    var u := Dropped(r, side, i, n);
    var dh := DropFrom(ch, side, i, k);
    forall m | m in u.nodes ensures InChain(ChainsOf(dh, At(u, m).side), m) {
      DroppedAt(r, side, i, n, m);
      var s := At(r, m).side;
      assert InChain(ChainsOf(ch, s), m);
      var j :| 0 <= j < |ChainsOf(ch, s)| && m in ChainsOf(ch, s)[j];
      if s == side && j == i {
        CutKeeps(ChainsOf(ch, side)[i], k, m);
      }
      assert m in ChainsOf(dh, s)[j];
    }
  }

  lemma {:induction false} CutKeeps(c: seq<nat>, k: nat, m: nat)
    requires k < |c| && m in c && m != c[k]
    ensures m in Cut(c, k)
  {
    var q :| 0 <= q < |c| && c[q] == m;
    assert Cut(c, k)[if q < k then q else q - 1] == m;
  }

  lemma {:induction false} CutAt(c: seq<nat>, k: nat, q: nat)
    requires k < |c| && q < |c| - 1
    ensures |Cut(c, k)| == |c| - 1 && Cut(c, k)[q] == c[if q < k then q else q + 1]
  {
  }

  lemma {:induction false} ChainAt(r: Rep, ch: Chains, side: Side, i: nat)
    requires i < |ChainsOf(ch, side)| && RepOk(r, ch)
    ensures |ChainsOf(ch, side)| == |LevelsOf(r, side)|
    ensures ChainOk(r.nodes, LevelsOf(r, side)[i], ChainsOf(ch, side)[i])
    ensures Homed(r, ChainsOf(ch, side)[i], side, LevelsOf(r, side)[i].price)
    ensures NoRepeat(ChainsOf(ch, side)[i]) && Linked(r.nodes, ChainsOf(ch, side)[i])
  {
  }

  lemma {:induction false} HomedAt(r: Rep, c: seq<nat>, side: Side, price: Price, q: nat)
    requires Homed(r, c, side, price) && q < |c|
    ensures c[q] in r.nodes && r.nodes[c[q]].order in r.orders && At(r, c[q]).side == side && At(r, c[q]).price == price
  {
  }

  /** A node of another chain is neither the dropped node nor one of its neighbours. */
  lemma {:induction false} NotANeighbour(r: Rep, ch: Chains, side: Side, i: nat, k: nat, s: Side, j: nat, q: nat)
    requires i < |ChainsOf(ch, side)| && k < |ChainsOf(ch, side)[i]|
    requires j < |ChainsOf(ch, s)| && !(s == side && j == i) && q < |ChainsOf(ch, s)[j]|
    requires RepOk(r, ch)
    ensures var c := ChainsOf(ch, side)[i];
            var m := ChainsOf(ch, s)[j][q];
            m != c[k] && (k > 0 ==> m != c[k - 1]) && (k + 1 < |c| ==> m != c[k + 1])
  {
    hide RepOk;
    var c := ChainsOf(ch, side)[i];
    var m := ChainsOf(ch, s)[j][q];
    if m == c[k] { OneHome(r, ch, side, i, k, s, j, q); }
    if k > 0 && m == c[k - 1] { OneHome(r, ch, side, i, k - 1, s, j, q); }
    if k + 1 < |c| && m == c[k + 1] { OneHome(r, ch, side, i, k + 1, s, j, q); }
  }

  lemma {:induction false} DroppedNodeElsewhere(r: Rep, ch: Chains, side: Side, i: nat, k: nat, s: Side, j: nat,
                                                q: nat, m: nat,
                                                u: Rep)
    requires i < |ChainsOf(ch, side)| && k < |ChainsOf(ch, side)[i]|
    requires j < |ChainsOf(ch, s)| && !(s == side && j == i) && q < |ChainsOf(ch, s)[j]| && m == ChainsOf(ch, s)[j][q]
    requires CanDrop(r, side, i, ChainsOf(ch, side)[i][k]) && u == Dropped(r, side, i, ChainsOf(ch, side)[i][k])
    requires RepOk(r, ch)
    ensures m in r.nodes && m in u.nodes && u.nodes[m] == r.nodes[m]
    ensures r.nodes[m].order in r.orders && r.nodes[m].order in u.orders
    ensures u.orders[r.nodes[m].order] == r.orders[r.nodes[m].order]
  {
    hide RepOk, Linked, NoRepeat, UnlinkNode, At, Homed, ChainOk, Bijective;
    var c := ChainsOf(ch, side)[i];
    ChainAt(r, ch, side, i);
    ChainAt(r, ch, s, j);
    HomedAt(r, ChainsOf(ch, s)[j], s, LevelsOf(r, s)[j].price, q);
    NeighboursLive(r.nodes, c, k);
    NotANeighbour(r, ch, side, i, k, s, j, q);
    UnlinkTouches(r.nodes, c[k], m);
    RepBijective(r, ch);
    NodesDiffer(r, c[k], m);
  }

  lemma {:induction false} RepBijective(r: Rep, ch: Chains)
    requires RepOk(r, ch)
    ensures Bijective(r)
  {
  }

  /** A chain other than the one losing a node is not touched. */
  lemma {:induction false} DroppedElsewhere(r: Rep, ch: Chains, side: Side, i: nat, k: nat, s: Side, j: nat)
    requires RepOk(r, ch) && i < |ChainsOf(ch, side)| && k < |ChainsOf(ch, side)[i]|
    requires CanDrop(r, side, i, ChainsOf(ch, side)[i][k])
    requires j < |ChainsOf(ch, s)| && !(s == side && j == i)
    ensures SameAlong(r, Dropped(r, side, i, ChainsOf(ch, side)[i][k]), ChainsOf(ch, s)[j])
  {
    hide RepOk, Dropped, CanDrop;
    var u := Dropped(r, side, i, ChainsOf(ch, side)[i][k]);
    var d := ChainsOf(ch, s)[j];
    forall q | 0 <= q < |d|
      ensures d[q] in r.nodes && d[q] in u.nodes && u.nodes[d[q]] == r.nodes[d[q]]
      ensures r.nodes[d[q]].order in u.orders && r.nodes[d[q]].order in r.orders
      ensures u.orders[r.nodes[d[q]].order] == r.orders[r.nodes[d[q]].order]
    {
      DroppedNodeElsewhere(r, ch, side, i, k, s, j, q, d[q], u);
    }
  }

  lemma {:induction false} DroppedHome(r: Rep, ch: Chains, side: Side, i: nat, k: nat, c: seq<nat>, u: Rep)
    requires i < |ChainsOf(ch, side)| && c == ChainsOf(ch, side)[i] && k < |c|
    requires CanDrop(r, side, i, c[k]) && u == Dropped(r, side, i, c[k])
    requires RepOk(r, ch)
    ensures i < |LevelsOf(u, side)| && ChainOk(u.nodes, LevelsOf(u, side)[i], Cut(c, k))
    ensures Homed(u, Cut(c, k), side, LevelsOf(u, side)[i].price)
    ensures View(u.nodes, u.orders, Cut(c, k)) == CutView(View(r.nodes, r.orders, c), k)
  {
    hide RepOk, UnlinkNode, ChainOk, Cut, At, View, Linked, NoRepeat;
    ChainAt(r, ch, side, i);
    UnlinkKeepsChain(r.nodes, LevelsOf(r, side)[i], c, k);
    CutLength(c, k);
    forall q | 0 <= q < |c| - 1
      ensures Cut(c, k)[q] in u.nodes && u.nodes[Cut(c, k)[q]].order in u.orders
      ensures At(u, Cut(c, k)[q]) == At(r, c[if q < k then q else q + 1])
      ensures At(u, Cut(c, k)[q]).side == side && At(u, Cut(c, k)[q]).price == LevelsOf(u, side)[i].price
    {
      DroppedNodeHome(r, ch, side, i, k, q, c, u);
    }
    ViewCut(r, u, c, k);
  }

  function CutView(v: seq<Order>, k: nat): seq<Order> {
    if k < |v| then v[..k] + v[k + 1..] else v
  }

  lemma {:induction false} ViewCut(r: Rep, u: Rep, c: seq<nat>, k: nat)
    requires k < |c|
    requires |Cut(c, k)| == |c| - 1
    requires forall q :: 0 <= q < |c| - 1 ==> At(u, Cut(c, k)[q]) == At(r, c[if q < k then q else q + 1])
    ensures View(u.nodes, u.orders, Cut(c, k)) == CutView(View(r.nodes, r.orders, c), k)
  {
    hide Cut;
  }

  lemma {:induction false} DroppedNodeHome(r: Rep, ch: Chains, side: Side, i: nat, k: nat, q: nat, c: seq<nat>, u: Rep)
    requires i < |ChainsOf(ch, side)| && c == ChainsOf(ch, side)[i] && k < |c| && q < |c| - 1
    requires CanDrop(r, side, i, c[k]) && u == Dropped(r, side, i, c[k])
    requires RepOk(r, ch)
    ensures var p := if q < k then q else q + 1;
            && |Cut(c, k)| == |c| - 1 && Cut(c, k)[q] == c[p]
            && c[p] in u.nodes && u.nodes[c[p]].order in u.orders
            && At(u, c[p]) == At(r, c[p]) && At(r, c[p]).side == side && At(r, c[p]).price == LevelsOf(r, side)[i].price
  {
    hide RepOk, ChainOk, Homed, Bijective, At, Linked, NoRepeat, UnlinkNode;
    var p := if q < k then q else q + 1;
    ChainAt(r, ch, side, i);
    HomedAt(r, c, side, LevelsOf(r, side)[i].price, p);
    RepBijective(r, ch);
    DifferAt(c, p, k);
    CutAt(c, k, q);
    DroppedAt(r, side, i, c[k], c[p]);
  }

  lemma {:induction false} DroppedSides(r: Rep, ch: Chains, side: Side, i: nat, k: nat, s: Side)
    requires RepOk(r, ch) && i < |ChainsOf(ch, side)| && k < |ChainsOf(ch, side)[i]|
    requires CanDrop(r, side, i, ChainsOf(ch, side)[i][k])
    ensures var u := Dropped(r, side, i, ChainsOf(ch, side)[i][k]);
            var dh := DropFrom(ch, side, i, k);
            && SideChains(u, dh, s) && SortedLevels(s, LevelsOf(u, s))
            && |ChainsOf(ch, s)| == |LevelsOf(r, s)|
            && (var m := MapView(r, ch, s);
                MapView(u, dh, s)
                == if s == side then m[i := Level(m[i].price, CutView(m[i].orders, k))] else m)
  {
    hide Covered, Bijective, UnlinkNode, ChainOk, Homed, Cut, View;
    var u := Dropped(r, side, i, ChainsOf(ch, side)[i][k]);
    var dh := DropFrom(ch, side, i, k);
    DroppedHome(r, ch, side, i, k, ChainsOf(ch, side)[i], u);
    ViewLength(r, ChainsOf(ch, side)[i]);
    forall j | 0 <= j < |LevelsOf(r, s)|
      ensures ChainOk(u.nodes, LevelsOf(u, s)[j], ChainsOf(dh, s)[j])
      ensures Homed(u, ChainsOf(dh, s)[j], s, LevelsOf(u, s)[j].price)
      ensures !(s == side && j == i) ==>
                View(u.nodes, u.orders, ChainsOf(dh, s)[j]) == View(r.nodes, r.orders, ChainsOf(ch, s)[j])
    {
      if !(s == side && j == i) {
        DroppedElsewhere(r, ch, side, i, k, s, j);
        SameAlongKeeps(r, u, LevelsOf(r, s)[j], ChainsOf(ch, s)[j], s);
      }
    }
  }

  lemma {:induction false} ViewLength(r: Rep, c: seq<nat>)
    ensures |View(r.nodes, r.orders, c)| == |c|
  {
  }

  /** Dropping a node removes exactly its order from the view and keeps everything else in step. */
  lemma {:induction false} DroppedOk(r: Rep, ch: Chains, side: Side, i: nat, k: nat)
    requires RepOk(r, ch) && i < |ChainsOf(ch, side)| && k < |ChainsOf(ch, side)[i]|
    ensures CanDrop(r, side, i, ChainsOf(ch, side)[i][k])
    ensures var u := Dropped(r, side, i, ChainsOf(ch, side)[i][k]);
            var dh := DropFrom(ch, side, i, k);
            RepOk(u, dh)
  {
    hide SideChains, SortedLevels, Bijective, Covered, Dropped;
    ChainedCanDrop(r, ch, side, i, k);
    DroppedSides(r, ch, side, i, k, Buy);
    DroppedSides(r, ch, side, i, k, Sell);
    DroppedBijective(r, side, i, ChainsOf(ch, side)[i][k]);
    DroppedCovered(r, ch, side, i, k);
  }

  // ---- Adding a node -------------------------------------------------------------------------

  ghost predicate CanAdd(r: Rep, side: Side, i: nat, n: nat, slot: nat, o: Order) {
    && i < |LevelsOf(r, side)|
    && n !in r.nodes && slot !in r.orders && o.id !in r.index
    && o.side == side && o.price == LevelsOf(r, side)[i].price
    && (LevelsOf(r, side)[i].tail.Some? ==> LevelsOf(r, side)[i].tail.value in r.nodes)
  }

  /** A fresh node carrying a fresh order, linked behind the tail of level `i` and indexed. */
  ghost function Added(r: Rep, side: Side, i: nat, n: nat, slot: nat, o: Order): Rep
    requires CanAdd(r, side, i, n, slot, o)
  {
    var ls := LevelsOf(r, side);
    WithLevels(r, side, ls[i := AppendLevel(ls[i], n)])
    .(nodes := AppendNode(r.nodes[n := Node(slot, None, None)], ls[i], n), orders := r.orders[slot := o],
      index := r.index[o.id := Locator(side, o.price, n)])
  }

  function AddTo(ch: Chains, side: Side, i: nat, n: nat): Chains
    requires i < |ChainsOf(ch, side)|
  {
    WithChains(ch, side, ChainsOf(ch, side)[i := ChainsOf(ch, side)[i] + [n]])
  }

  lemma {:induction false} AddedAt(r: Rep, side: Side, i: nat, n: nat, slot: nat, o: Order, m: nat, u: Rep)
    requires CanAdd(r, side, i, n, slot, o) && u == Added(r, side, i, n, slot, o) && Bijective(r)
    ensures m in u.nodes <==> m in r.nodes || m == n
    ensures m == n ==> u.nodes[m].order == slot && At(u, m) == o
    ensures m in r.nodes ==>
              m != n && r.nodes[m].order in r.orders && u.nodes[m].order == r.nodes[m].order && At(u, m) == At(r, m)
  {
    hide AppendNode;
    AppendTouches(r.nodes[n := Node(slot, None, None)], LevelsOf(r, side)[i], n, m);
  }

  lemma {:induction false} AddedBijective(r: Rep, side: Side, i: nat, n: nat, slot: nat, o: Order, u: Rep)
    requires CanAdd(r, side, i, n, slot, o) && u == Added(r, side, i, n, slot, o) && Bijective(r)
    ensures Bijective(u)
  {
    hide AppendNode, At;
    forall m | m in u.nodes
      ensures u.nodes[m].order in u.orders
      ensures At(u, m).id in u.index && u.index[At(u, m).id] == Locator(At(u, m).side, At(u, m).price, m)
    {
      AddedAt(r, side, i, n, slot, o, m, u);
    }
    forall id | id in u.index ensures u.index[id].node in u.nodes && At(u, u.index[id].node).id == id {
      AddedAt(r, side, i, n, slot, o, u.index[id].node, u);
    }
    forall x | x in u.orders
      ensures u.orders[x].id in u.index && u.index[u.orders[x].id].node in u.nodes
              && u.nodes[u.index[u.orders[x].id].node].order == x
    {
      AddedAt(r, side, i, n, slot, o, u.index[u.orders[x].id].node, u);
    }
  }

  lemma {:induction false} AddedCovered(r: Rep, ch: Chains, side: Side, i: nat, n: nat, slot: nat, o: Order, u: Rep)
    requires i < |ChainsOf(ch, side)| && CanAdd(r, side, i, n, slot, o) && u == Added(r, side, i, n, slot, o)
    requires Bijective(r) && Covered(r, ch)
    ensures Covered(u, AddTo(ch, side, i, n))
  {
    hide Bijective, AppendNode, At;
    var ah := AddTo(ch, side, i, n);
    forall m | m in u.nodes ensures InChain(ChainsOf(ah, At(u, m).side), m) {
      AddedAt(r, side, i, n, slot, o, m, u);
      if m == n {
        assert ChainsOf(ah, side)[i][|ChainsOf(ch, side)[i]|] == n;
        assert n in ChainsOf(ah, side)[i];
      } else {
        var s := At(r, m).side;
        var j :| 0 <= j < |ChainsOf(ch, s)| && m in ChainsOf(ch, s)[j];
        assert m in ChainsOf(ah, s)[j];
      }
    }
  }

  lemma {:induction false} NotTheTail(r: Rep, ch: Chains, side: Side, i: nat, s: Side, j: nat, q: nat)
    requires i < |ChainsOf(ch, side)| && j < |ChainsOf(ch, s)| && !(s == side && j == i) && q < |ChainsOf(ch, s)[j]|
    requires RepOk(r, ch)
    ensures Last(ChainsOf(ch, side)[i]) != Some(ChainsOf(ch, s)[j][q])
  {
    hide RepOk;
    var c := ChainsOf(ch, side)[i];
    if c != [] && c[|c| - 1] == ChainsOf(ch, s)[j][q] {
      OneHome(r, ch, side, i, |c| - 1, s, j, q);
    }
  }

  lemma {:induction false} AddedElsewhere(r: Rep, ch: Chains, side: Side, i: nat, n: nat, slot: nat, o: Order, u: Rep,
                                          s: Side, j: nat)
    requires i < |ChainsOf(ch, side)| && j < |ChainsOf(ch, s)| && !(s == side && j == i)
    requires CanAdd(r, side, i, n, slot, o) && u == Added(r, side, i, n, slot, o)
    requires RepOk(r, ch)
    ensures SameAlong(r, u, ChainsOf(ch, s)[j])
  {
    hide RepOk, AppendNode, Homed, Linked, NoRepeat;
    var d := ChainsOf(ch, s)[j];
    ChainAt(r, ch, side, i);
    ChainAt(r, ch, s, j);
    forall q | 0 <= q < |d|
      ensures d[q] in r.nodes && d[q] in u.nodes && u.nodes[d[q]] == r.nodes[d[q]]
      ensures r.nodes[d[q]].order in u.orders && r.nodes[d[q]].order in r.orders
      ensures u.orders[r.nodes[d[q]].order] == r.orders[r.nodes[d[q]].order]
    {
      HomedAt(r, d, s, LevelsOf(r, s)[j].price, q);
      NotTheTail(r, ch, side, i, s, j, q);
      AppendTouches(r.nodes[n := Node(slot, None, None)], LevelsOf(r, side)[i], n, d[q]);
    }
  }

  lemma {:induction false} AddedHome(r: Rep, ch: Chains, side: Side, i: nat, n: nat, slot: nat, o: Order, c: seq<nat>,
                                     u: Rep)
    requires i < |ChainsOf(ch, side)| && c == ChainsOf(ch, side)[i]
    requires CanAdd(r, side, i, n, slot, o) && u == Added(r, side, i, n, slot, o)
    requires RepOk(r, ch)
    ensures ChainOk(u.nodes, LevelsOf(u, side)[i], c + [n])
    ensures Homed(u, c + [n], side, LevelsOf(u, side)[i].price)
    ensures View(u.nodes, u.orders, c + [n]) == View(r.nodes, r.orders, c) + [o]
  {
    hide RepOk, AppendNode, ChainOk, At, Bijective, Homed, Linked, NoRepeat, View;
    ChainAt(r, ch, side, i);
    RepBijective(r, ch);
    var l := LevelsOf(r, side)[i];
    var nodes0 := r.nodes[n := Node(slot, None, None)];
    forall k | 0 <= k < |c| ensures c[k] in r.nodes && c[k] != n {
      HomedAt(r, c, side, l.price, k);
    }
    ChainFrame(r.nodes, nodes0, l, c);
    AppendKeepsChain(nodes0, l, c, n);
    var d := c + [n];
    forall k | 0 <= k < |d|
      ensures d[k] in u.nodes && u.nodes[d[k]].order in u.orders
      ensures At(u, d[k]) == (if k < |c| then At(r, c[k]) else o)
      ensures At(u, d[k]).side == side && At(u, d[k]).price == LevelsOf(u, side)[i].price
    {
      AddedAt(r, side, i, n, slot, o, d[k], u);
      if k < |c| { HomedAt(r, c, side, l.price, k); }
    }
    HomedFrom(u, d, side, LevelsOf(u, side)[i].price);
    ViewAdd(r, u, c, n, o);
  }

  lemma {:induction false} HomedFrom(u: Rep, d: seq<nat>, side: Side, price: Price)
    requires forall k :: 0 <= k < |d| ==> d[k] in u.nodes && u.nodes[d[k]].order in u.orders
    requires forall k :: 0 <= k < |d| ==> At(u, d[k]).side == side && At(u, d[k]).price == price
    ensures Homed(u, d, side, price)
  {
  }

  lemma {:induction false} ViewAdd(r: Rep, u: Rep, c: seq<nat>, n: nat, o: Order)
    requires forall k :: 0 <= k < |c + [n]| ==> At(u, (c + [n])[k]) == if k < |c| then At(r, c[k]) else o
    ensures View(u.nodes, u.orders, c + [n]) == View(r.nodes, r.orders, c) + [o]
  {
  }

  lemma {:induction false} AddedSides(r: Rep, ch: Chains, side: Side, i: nat, n: nat, slot: nat, o: Order, u: Rep,
                                      s: Side)
    requires i < |ChainsOf(ch, side)|
    requires CanAdd(r, side, i, n, slot, o) && u == Added(r, side, i, n, slot, o)
    requires RepOk(r, ch)
    ensures SideChains(u, AddTo(ch, side, i, n), s) && SortedLevels(s, LevelsOf(u, s))
    ensures |ChainsOf(ch, s)| == |LevelsOf(r, s)|
    ensures var m := MapView(r, ch, s);
            MapView(u, AddTo(ch, side, i, n), s)
            == if s == side then m[i := Level(m[i].price, m[i].orders + [o])] else m
  {
    hide Covered, Bijective, AppendNode, ChainOk, Homed, View;
    var ah := AddTo(ch, side, i, n);
    AddedHome(r, ch, side, i, n, slot, o, ChainsOf(ch, side)[i], u);
    forall j | 0 <= j < |LevelsOf(r, s)|
      ensures ChainOk(u.nodes, LevelsOf(u, s)[j], ChainsOf(ah, s)[j])
      ensures Homed(u, ChainsOf(ah, s)[j], s, LevelsOf(u, s)[j].price)
      ensures !(s == side && j == i) ==>
                View(u.nodes, u.orders, ChainsOf(ah, s)[j]) == View(r.nodes, r.orders, ChainsOf(ch, s)[j])
    {
      if !(s == side && j == i) {
        AddedElsewhere(r, ch, side, i, n, slot, o, u, s, j);
        SameAlongKeeps(r, u, LevelsOf(r, s)[j], ChainsOf(ch, s)[j], s);
      }
    }
  }

  lemma {:induction false} AddedOk(r: Rep, ch: Chains, side: Side, i: nat, n: nat, slot: nat, o: Order, u: Rep)
    requires i < |ChainsOf(ch, side)|
    requires CanAdd(r, side, i, n, slot, o) && u == Added(r, side, i, n, slot, o)
    requires RepOk(r, ch)
    ensures RepOk(u, AddTo(ch, side, i, n))
  {
    hide SideChains, SortedLevels, Bijective, Covered, Added, CanAdd, AddTo;
    AddedSides(r, ch, side, i, n, slot, o, u, Buy);
    AddedSides(r, ch, side, i, n, slot, o, u, Sell);
    AddedBijective(r, side, i, n, slot, o, u);
    AddedCovered(r, ch, side, i, n, slot, o, u);
  }

  // ---- Creating and erasing an empty level ---------------------------------------------------

  function PutLevel<T>(s: seq<T>, i: nat, x: T): seq<T>
    requires i <= |s|
  {
    s[..i] + [x] + s[i..]
  }

  function CutLevel<T>(s: seq<T>, i: nat): seq<T>
    requires i < |s|
  {
    s[..i] + s[i + 1..]
  }

  function Emplaced(r: Rep, side: Side, i: nat, price: Price): Rep
    requires i <= |LevelsOf(r, side)|
  {
    WithLevels(r, side, PutLevel(LevelsOf(r, side), i, NodeLevel(price, None, None, 0)))
  }

  function Erased(r: Rep, side: Side, i: nat): Rep
    requires i < |LevelsOf(r, side)|
  {
    WithLevels(r, side, CutLevel(LevelsOf(r, side), i))
  }

  lemma {:induction false} EmplacedOk(r: Rep, ch: Chains, side: Side, i: nat, price: Price)
    requires i <= |LevelsOf(r, side)| && i <= |ChainsOf(ch, side)| && RepOk(r, ch)
    requires forall j :: 0 <= j < i ==> Better(side, LevelsOf(r, side)[j].price, price)
    requires forall j :: i <= j < |LevelsOf(r, side)| ==> Better(side, price, LevelsOf(r, side)[j].price)
    ensures var u := Emplaced(r, side, i, price);
            var eh := WithChains(ch, side, PutLevel(ChainsOf(ch, side), i, []));
            && RepOk(u, eh)
            && |ChainsOf(ch, side)| == |LevelsOf(r, side)|
            && |ChainsOf(ch, Opposite(side))| == |LevelsOf(r, Opposite(side))|
            && MapView(u, eh, side) == PutLevel(MapView(r, ch, side), i, Level(price, []))
            && MapView(u, eh, Opposite(side)) == MapView(r, ch, Opposite(side))
  {
    hide Bijective, ChainOk, Homed, View, InChain, At;
    var u := Emplaced(r, side, i, price);
    var cs := ChainsOf(ch, side);
    var es := PutLevel(cs, i, []);
    var eh := WithChains(ch, side, es);
    EmptyChainOk(u, side, price);
    forall j | 0 <= j < |es|
      ensures ChainOk(u.nodes, LevelsOf(u, side)[j], es[j]) && Homed(u, es[j], side, LevelsOf(u, side)[j].price)
    {
      var j' := if j < i then j else j - 1;
      if j != i {
        assert es[j] == cs[j'] && LevelsOf(u, side)[j] == LevelsOf(r, side)[j'];
        SameRest(r, u, cs[j'], side, LevelsOf(r, side)[j'].price);
      }
    }
    OtherSideKept(r, u, ch, eh, side);
    EmplacedSorted(LevelsOf(r, side), side, i, NodeLevel(price, None, None, 0));
    SameBijective(r, u);
    forall n | n in u.nodes ensures InChain(ChainsOf(eh, At(u, n).side), n) {
      SameAt(r, u, n);
      PutKeepsInChain(cs, i, n);
    }
    PutView(r, u, ch, side, i, price);
  }

  lemma {:induction false} SameAt(r: Rep, u: Rep, n: nat)
    requires u.nodes == r.nodes && u.orders == r.orders
    ensures At(u, n) == At(r, n)
  {
  }

  lemma {:induction false} SameRest(r: Rep, u: Rep, c: seq<nat>, side: Side, price: Price)
    requires u.nodes == r.nodes && u.orders == r.orders && Homed(r, c, side, price)
    ensures Homed(u, c, side, price)
  {
  }

  lemma {:induction false} SameBijective(r: Rep, u: Rep)
    requires u.nodes == r.nodes && u.orders == r.orders && u.index == r.index && Bijective(r)
    ensures Bijective(u)
  {
  }

  lemma {:induction false} OtherSideKept(r: Rep, u: Rep, ch: Chains, eh: Chains, side: Side)
    requires u.nodes == r.nodes && u.orders == r.orders && SideChains(r, ch, Opposite(side))
    requires LevelsOf(u, Opposite(side)) == LevelsOf(r, Opposite(side))
    requires ChainsOf(eh, Opposite(side)) == ChainsOf(ch, Opposite(side))
    ensures SideChains(u, eh, Opposite(side))
    ensures MapView(u, eh, Opposite(side)) == MapView(r, ch, Opposite(side))
  {
    hide ChainOk, View;
  }

  lemma {:induction false} EmptyChainOk(u: Rep, side: Side, price: Price)
    ensures ChainOk(u.nodes, NodeLevel(price, None, None, 0), []) && Homed(u, [], side, price)
    ensures View(u.nodes, u.orders, []) == []
  {
  }

  lemma {:induction false} EmplacedSorted(ls: seq<NodeLevel>, side: Side, i: nat, l: NodeLevel)
    requires SortedLevels(side, ls) && i <= |ls|
    requires forall j :: 0 <= j < i ==> Better(side, ls[j].price, l.price)
    requires forall j :: i <= j < |ls| ==> Better(side, l.price, ls[j].price)
    ensures SortedLevels(side, PutLevel(ls, i, l))
  {
    var p := PutLevel(ls, i, l);
    forall a, b | 0 <= a < b < |p| ensures Better(side, p[a].price, p[b].price) {
      assert p[a] == (if a < i then ls[a] else if a == i then l else ls[a - 1]);
      assert p[b] == (if b < i then ls[b] else if b == i then l else ls[b - 1]);
    }
  }

  lemma {:induction false} PutKeepsInChain(cs: seq<seq<nat>>, i: nat, n: nat)
    requires i <= |cs|
    ensures InChain(cs, n) ==> InChain(PutLevel(cs, i, []), n)
  {
    if InChain(cs, n) {
      var j :| 0 <= j < |cs| && n in cs[j];
      assert n in PutLevel(cs, i, [])[if j < i then j else j + 1];
    }
  }

  lemma {:induction false} PutView(r: Rep, u: Rep, ch: Chains, side: Side, i: nat, price: Price)
    requires i <= |LevelsOf(r, side)| == |ChainsOf(ch, side)| && u == Emplaced(r, side, i, price)
    ensures MapView(u, WithChains(ch, side, PutLevel(ChainsOf(ch, side), i, [])), side)
            == PutLevel(MapView(r, ch, side), i, Level(price, []))
  {
    hide View;
    EmptyChainOk(u, side, price);
    var m, p := MapView(r, ch, side), MapView(u, WithChains(ch, side, PutLevel(ChainsOf(ch, side), i, [])), side);
    forall j | 0 <= j < |p| ensures p[j] == PutLevel(m, i, Level(price, []))[j] {
      if j < i {
        assert p[j] == m[j];
      } else if j > i {
        assert p[j] == m[j - 1];
      }
    }
  }

  lemma {:induction false} ErasedOk(r: Rep, ch: Chains, side: Side, i: nat)
    requires i < |LevelsOf(r, side)| && i < |ChainsOf(ch, side)| && ChainsOf(ch, side)[i] == [] && RepOk(r, ch)
    ensures var u := Erased(r, side, i);
            var eh := WithChains(ch, side, CutLevel(ChainsOf(ch, side), i));
            && RepOk(u, eh)
            && |ChainsOf(ch, side)| == |LevelsOf(r, side)|
            && |ChainsOf(ch, Opposite(side))| == |LevelsOf(r, Opposite(side))|
            && MapView(u, eh, side) == CutLevel(MapView(r, ch, side), i)
            && MapView(u, eh, Opposite(side)) == MapView(r, ch, Opposite(side))
  {
    hide Bijective, ChainOk, Homed, View, InChain, At;
    var u := Erased(r, side, i);
    var cs := ChainsOf(ch, side);
    var es := CutLevel(cs, i);
    var eh := WithChains(ch, side, es);
    forall j | 0 <= j < |es|
      ensures ChainOk(u.nodes, LevelsOf(u, side)[j], es[j]) && Homed(u, es[j], side, LevelsOf(u, side)[j].price)
    {
      var j' := if j < i then j else j + 1;
      assert es[j] == cs[j'] && LevelsOf(u, side)[j] == LevelsOf(r, side)[j'];
      SameRest(r, u, cs[j'], side, LevelsOf(r, side)[j'].price);
    }
    OtherSideKept(r, u, ch, eh, side);
    ErasedSorted(LevelsOf(r, side), side, i);
    SameBijective(r, u);
    forall n | n in u.nodes ensures InChain(ChainsOf(eh, At(u, n).side), n) {
      SameAt(r, u, n);
      CutKeepsInChain(cs, i, n);
    }
    ErasedView(r, u, ch, side, i);
  }

  lemma {:induction false} ErasedSorted(ls: seq<NodeLevel>, side: Side, i: nat)
    requires SortedLevels(side, ls) && i < |ls|
    ensures SortedLevels(side, CutLevel(ls, i))
  {
    var p := CutLevel(ls, i);
    assert forall a :: 0 <= a < |p| ==> p[a] == ls[if a < i then a else a + 1];
  }

  lemma {:induction false} CutKeepsInChain(cs: seq<seq<nat>>, i: nat, n: nat)
    requires i < |cs| && cs[i] == []
    ensures InChain(cs, n) ==> InChain(CutLevel(cs, i), n)
  {
    if InChain(cs, n) {
      var j :| 0 <= j < |cs| && n in cs[j];
      assert n in CutLevel(cs, i)[if j < i then j else j - 1];
    }
  }

  lemma {:induction false} ErasedView(r: Rep, u: Rep, ch: Chains, side: Side, i: nat)
    requires i < |LevelsOf(r, side)| == |ChainsOf(ch, side)| && u == Erased(r, side, i)
    ensures MapView(u, WithChains(ch, side, CutLevel(ChainsOf(ch, side), i)), side) == CutLevel(MapView(r, ch, side), i)
  {
    hide View;
    var m, p := MapView(r, ch, side), MapView(u, WithChains(ch, side, CutLevel(ChainsOf(ch, side), i)), side);
    forall j | 0 <= j < |p| ensures p[j] == CutLevel(m, i)[j] {
      if j < i {
        assert p[j] == m[j];
      } else {
        assert p[j] == m[j + 1];
      }
    }
  }

  // ---- Counting ------------------------------------------------------------------------------

  /** An injective map has as many values as keys. */
  lemma {:induction false} InjectiveCounts<A, B>(m: map<A, B>, values: set<B>)
    requires forall x, y :: x in m && y in m && m[x] == m[y] ==> x == y
    requires forall v :: v in values <==> exists x :: x in m && m[x] == v
    ensures |values| == |m|
    decreases |m|
  {
    if |m| == 0 {
      assert m.Keys == {};
      assert values == {};
    } else {
      var x :| x in m.Keys;
      var rest := m - {x};
      assert m[x] in values;
      forall v ensures v in values - {m[x]} <==> exists y :: y in rest && rest[y] == v {
        if v in values - {m[x]} {
          var y :| y in m && m[y] == v;
          assert y in rest && rest[y] == v;
        }
      }
      assert |rest| == |m| - 1 by { assert rest.Keys == m.Keys - {x}; assert |rest.Keys| == |rest| && |m.Keys| == |m|; }
      InjectiveCounts(rest, values - {m[x]});
    }
  }

  lemma {:induction false} NodesCountOrders(r: Rep)
    requires Bijective(r)
    ensures |r.nodes| == |r.orders|
  {
    hide Bijective;
    var byNode := map n | n in r.nodes :: r.nodes[n].order;
    forall x, y | x in byNode && y in byNode && byNode[x] == byNode[y] ensures x == y {
      if x != y { NodesDiffer(r, x, y); }
    }
    forall o ensures o in r.orders.Keys <==> exists n :: n in byNode && byNode[n] == o {
      if o in r.orders {
        var n := NodeOfOrder(r, o);
        assert n in byNode && byNode[n] == o;
      }
      if n :| n in byNode && byNode[n] == o {
        OrderOfNode(r, n);
      }
    }
    InjectiveCounts(byNode, r.orders.Keys);
    assert byNode.Keys == r.nodes.Keys && |byNode| == |byNode.Keys|;
  }

  lemma {:induction false} NodeOfOrder(r: Rep, o: nat) returns (n: nat)
    requires Bijective(r) && o in r.orders
    ensures n in r.nodes && r.nodes[n].order == o
  {
    n := r.index[r.orders[o].id].node;
  }

  lemma {:induction false} OrderOfNode(r: Rep, n: nat)
    requires Bijective(r) && n in r.nodes
    ensures r.nodes[n].order in r.orders && At(r, n).id in r.index && r.index[At(r, n).id].node == n
  {
  }

  lemma {:induction false} NodeOfId(r: Rep, id: OrderId)
    requires Bijective(r) && id in r.index
    ensures r.index[id].node in r.nodes && At(r, r.index[id].node).id == id
  {
  }

  lemma {:induction false} IndexCountsNodes(r: Rep)
    requires Bijective(r)
    ensures |r.nodes| == |r.index|
  {
    hide Bijective, At;
    var byId := map id | id in r.index :: r.index[id].node;
    forall x, y | x in byId && y in byId && byId[x] == byId[y] ensures x == y {
      NodeOfId(r, x);
      NodeOfId(r, y);
    }
    forall n ensures n in r.nodes.Keys <==> exists id :: id in byId && byId[id] == n {
      if n in r.nodes {
        OrderOfNode(r, n);
        assert At(r, n).id in byId && byId[At(r, n).id] == n;
      }
      if id :| id in byId && byId[id] == n {
        NodeOfId(r, id);
      }
    }
    InjectiveCounts(byId, r.nodes.Keys);
    assert byId.Keys == r.index.Keys && |byId| == |byId.Keys|;
  }

  /** The pools and the index are used in step. */
  lemma {:induction false} SlotsInStep(r: Rep)
    requires Bijective(r)
    ensures |r.nodes| == |r.orders| && |r.nodes| == |r.index|
  {
    hide Bijective;
    NodesCountOrders(r);
    IndexCountsNodes(r);
  }

  /** Where a live node is. */
  lemma {:induction false} NodePlace(r: Rep, ch: Chains, n: nat) returns (i: nat, k: nat)
    requires n in r.nodes && RepOk(r, ch)
    ensures var side := At(r, n).side;
            && i < |ChainsOf(ch, side)| && i < |LevelsOf(r, side)| && k < |ChainsOf(ch, side)[i]|
            && ChainsOf(ch, side)[i][k] == n && LevelsOf(r, side)[i].price == At(r, n).price
            && r.nodes[n].order in r.orders
  {
    hide Bijective, SortedLevels, ChainOk;
    var side := At(r, n).side;
    assert InChain(ChainsOf(ch, side), n);
    i :| 0 <= i < |ChainsOf(ch, side)| && n in ChainsOf(ch, side)[i];
    k :| 0 <= k < |ChainsOf(ch, side)[i]| && ChainsOf(ch, side)[i][k] == n;
    assert Homed(r, ChainsOf(ch, side)[i], side, LevelsOf(r, side)[i].price);
  }

  lemma {:induction false} SlotsAgree(r: Rep, ch: Chains, side: Side, price: Price)
    requires |ChainsOf(ch, side)| == |LevelsOf(r, side)|
    ensures |MapView(r, ch, side)| == |LevelsOf(r, side)|
    ensures Slot(MapView(r, ch, side), side, price) == LevelSlot(LevelsOf(r, side), side, price)
  {
    hide View, Slot, LevelSlot;
    var m, ls := MapView(r, ch, side), LevelsOf(r, side);
    var a, b := Slot(m, side, price), LevelSlot(ls, side, price);
    assert forall i :: 0 <= i < |ls| ==> m[i].price == ls[i].price;
  }

  lemma {:induction false} ViewSorted(r: Rep, ch: Chains, side: Side)
    requires |ChainsOf(ch, side)| == |LevelsOf(r, side)| && SortedLevels(side, LevelsOf(r, side))
    ensures SortedMap(side, MapView(r, ch, side))
  {
    hide View;
  }
}
