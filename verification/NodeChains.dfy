/**
 * The value layer of the intrusive storage: doubly linked FIFO chains of pool nodes, one per price
 * level, and the locator index into them.
 */
module NodeChains {
  import opened Types

  /** A pool node: the order slot it carries and its neighbours, as slot numbers. */
  datatype Node = Node(order: nat, prev: Option<nat>, next: Option<nat>)

  datatype NodeLevel = NodeLevel(price: Price, head: Option<nat>, tail: Option<nat>, size: nat)

  datatype Locator = Locator(side: Side, price: Price, node: nat)

  /** Everything the store mutates; the pools as what their live slots hold. */
  datatype Rep = Rep(nodes: map<nat, Node>, orders: map<nat, Order>, bids: seq<NodeLevel>, asks: seq<NodeLevel>,
                     index: map<OrderId, Locator>)

  /** The node sequences the links of each level spell out. */
  datatype Chains = Chains(bids: seq<seq<nat>>, asks: seq<seq<nat>>)

  const NO_ORDER := Order(0, Buy, 0, 0)

  function LevelsOf(r: Rep, side: Side): seq<NodeLevel> {
    if side.Buy? then r.bids else r.asks
  }

  function ChainsOf(ch: Chains, side: Side): seq<seq<nat>> {
    if side.Buy? then ch.bids else ch.asks
  }

  function WithLevels(r: Rep, side: Side, ls: seq<NodeLevel>): Rep {
    if side.Buy? then r.(bids := ls) else r.(asks := ls)
  }

  function WithChains(ch: Chains, side: Side, cs: seq<seq<nat>>): Chains {
    if side.Buy? then ch.(bids := cs) else ch.(asks := cs)
  }

  function First(c: seq<nat>): Option<nat> {
    if c == [] then None else Some(c[0])
  }

  function Last(c: seq<nat>): Option<nat> {
    if c == [] then None else Some(c[|c| - 1])
  }

  function Prev(c: seq<nat>, k: nat): Option<nat>
    requires k < |c|
  {
    if k == 0 then None else Some(c[k - 1])
  }

  function Next(c: seq<nat>, k: nat): Option<nat>
    requires k < |c|
  {
    if k + 1 == |c| then None else Some(c[k + 1])
  }

  // ---- One chain -----------------------------------------------------------------------------

  ghost predicate Linked(nodes: map<nat, Node>, c: seq<nat>) {
    forall k :: 0 <= k < |c| ==>
      c[k] in nodes && nodes[c[k]].prev == Prev(c, k) && nodes[c[k]].next == Next(c, k)
  }

  ghost predicate NoRepeat(c: seq<nat>) {
    forall i, j :: 0 <= i < j < |c| ==> c[i] != c[j]
  }

  /** Head, tail, size and links of a level spell out exactly `c`. */
  ghost predicate ChainOk(nodes: map<nat, Node>, l: NodeLevel, c: seq<nat>) {
    && l.head == First(c) && l.tail == Last(c) && l.size == |c|
    && Linked(nodes, c) && NoRepeat(c)
  }

  function OrderAt(nodes: map<nat, Node>, orders: map<nat, Order>, n: nat): Order {
    if n in nodes && nodes[n].order in orders then orders[nodes[n].order] else NO_ORDER
  }

  function View(nodes: map<nat, Node>, orders: map<nat, Order>, c: seq<nat>): seq<Order> {
    seq(|c|, k requires 0 <= k < |c| => OrderAt(nodes, orders, c[k]))
  }

  /** `append_node`: link `n` behind the tail. */
  function AppendNode(nodes: map<nat, Node>, l: NodeLevel, n: nat): map<nat, Node>
    requires n in nodes && (l.tail.Some? ==> l.tail.value in nodes)
  {
    var linked := nodes[n := nodes[n].(prev := l.tail, next := None)];
    if l.tail.Some? then linked[l.tail.value := linked[l.tail.value].(next := Some(n))] else linked
  }

  function AppendLevel(l: NodeLevel, n: nat): NodeLevel {
    l.(head := if l.tail.Some? then l.head else Some(n), tail := Some(n), size := l.size + 1)
  }

  /** `unlink_node`: join the neighbours of `n`. */
  function UnlinkNode(nodes: map<nat, Node>, n: nat): map<nat, Node>
    requires n in nodes
    requires nodes[n].prev.Some? ==> nodes[n].prev.value in nodes
    requires nodes[n].next.Some? ==> nodes[n].next.value in nodes
  {
    var p, q := nodes[n].prev, nodes[n].next;
    var left := if p.Some? then nodes[p.value := nodes[p.value].(next := q)] else nodes;
    if q.Some? then left[q.value := left[q.value].(prev := p)] else left
  }

  function UnlinkLevel(l: NodeLevel, x: Node): NodeLevel
    requires l.size > 0
  {
    l.(head := if x.prev.Some? then l.head else x.next, tail := if x.next.Some? then l.tail else x.prev,
       size := l.size - 1)
  }

  lemma {:induction false} AppendKeepsChain(nodes: map<nat, Node>, l: NodeLevel, c: seq<nat>, n: nat)
    requires ChainOk(nodes, l, c) && n in nodes && n !in c
    ensures l.tail.Some? ==> l.tail.value in nodes
    ensures ChainOk(AppendNode(nodes, l, n), AppendLevel(l, n), c + [n])
  {
    var u := AppendNode(nodes, l, n);
    var d := c + [n];
    if c != [] {
      assert c[|c| - 1] in nodes;
    }
    forall k | 0 <= k < |d| ensures d[k] in u && u[d[k]].prev == Prev(d, k) && u[d[k]].next == Next(d, k) {
      if k < |c| {
        assert d[k] == c[k] && c[k] in nodes && c[k] != n;
      }
    }
  }

  lemma {:induction false} NeighboursLive(nodes: map<nat, Node>, c: seq<nat>, k: nat)
    requires Linked(nodes, c) && k < |c|
    ensures c[k] in nodes && nodes[c[k]].prev == Prev(c, k) && nodes[c[k]].next == Next(c, k)
    ensures k > 0 ==> c[k - 1] in nodes
    ensures k + 1 < |c| ==> c[k + 1] in nodes
  {
  }

  lemma {:induction false} DifferAt(c: seq<nat>, i: nat, j: nat)
    requires NoRepeat(c) && i < |c| && j < |c|
    ensures c[i] == c[j] <==> i == j
  {
  }

  function Cut(c: seq<nat>, k: nat): seq<nat>
    requires k < |c|
  {
    c[..k] + c[k + 1..]
  }

  lemma {:induction false} CutNoRepeat(c: seq<nat>, k: nat)
    requires NoRepeat(c) && k < |c|
    ensures NoRepeat(Cut(c, k))
  {
    var d := Cut(c, k);
    forall i, j | 0 <= i < j < |d| ensures d[i] != d[j] {
      var i', j' := if i < k then i else i + 1, if j < k then j else j + 1;
      assert d[i] == c[i'] && d[j] == c[j'];
    }
  }

  lemma {:induction false} CutEnds(c: seq<nat>, k: nat)
    requires k < |c|
    ensures First(Cut(c, k)) == if k == 0 then Next(c, 0) else Some(c[0])
    ensures Last(Cut(c, k)) == if k + 1 == |c| then Prev(c, k) else Some(c[|c| - 1])
  {
  }

  lemma {:induction false} UnlinkKeepsChain(nodes: map<nat, Node>, l: NodeLevel, c: seq<nat>, k: nat)
    requires ChainOk(nodes, l, c) && k < |c|
    ensures c[k] in nodes
    ensures nodes[c[k]].prev.Some? ==> nodes[c[k]].prev.value in nodes
    ensures nodes[c[k]].next.Some? ==> nodes[c[k]].next.value in nodes
    ensures ChainOk(UnlinkNode(nodes, c[k]) - {c[k]}, UnlinkLevel(l, nodes[c[k]]), Cut(c, k))
  {
    hide UnlinkNode, NoRepeat, Linked, Cut;
    NeighboursLive(nodes, c, k);
    CutNoRepeat(c, k);
    CutEnds(c, k);
    CutLength(c, k);
    UnlinkLinked(nodes, c, k);
  }

  lemma {:induction false} CutLength(c: seq<nat>, k: nat)
    requires k < |c|
    ensures |Cut(c, k)| == |c| - 1
  {
  }

  lemma {:induction false} UnlinkLinked(nodes: map<nat, Node>, c: seq<nat>, k: nat)
    requires Linked(nodes, c) && NoRepeat(c) && k < |c|
    requires c[k] in nodes
    requires nodes[c[k]].prev.Some? ==> nodes[c[k]].prev.value in nodes
    requires nodes[c[k]].next.Some? ==> nodes[c[k]].next.value in nodes
    ensures Linked(UnlinkNode(nodes, c[k]) - {c[k]}, Cut(c, k))
  {
    hide UnlinkNode, NoRepeat;
    var u := UnlinkNode(nodes, c[k]) - {c[k]};
    var d := Cut(c, k);
    forall i | 0 <= i < |d| ensures d[i] in u && u[d[i]].prev == Prev(d, i) && u[d[i]].next == Next(d, i) {
      UnlinkedAt(nodes, c, k, i);
    }
  }

  lemma {:induction false} UnlinkedAt(nodes: map<nat, Node>, c: seq<nat>, k: nat, i: nat)
    requires Linked(nodes, c) && NoRepeat(c) && k < |c| && i < |c| - 1
    requires c[k] in nodes
    requires nodes[c[k]].prev.Some? ==> nodes[c[k]].prev.value in nodes
    requires nodes[c[k]].next.Some? ==> nodes[c[k]].next.value in nodes
    ensures var u := UnlinkNode(nodes, c[k]);
            var d := Cut(c, k);
            d[i] != c[k] && d[i] in u && u[d[i]].prev == Prev(d, i) && u[d[i]].next == Next(d, i)
  {
    hide Linked, NoRepeat;
    var j := if i < k then i else i + 1;
    var d := Cut(c, k);
    DifferAt(c, j, k);
    if k > 0 { DifferAt(c, j, k - 1); DifferAt(c, k, k - 1); }
    if k + 1 < |c| { DifferAt(c, j, k + 1); DifferAt(c, k, k + 1); }
    NeighboursLive(nodes, c, k);
    NeighboursLive(nodes, c, j);
    assert d[i] == c[j];
    assert i > 0 ==> d[i - 1] == c[if i - 1 < k then i - 1 else i];
    assert i + 1 < |d| ==> d[i + 1] == c[if i + 1 < k then i + 1 else i + 2];
  }

  /** A chain none of whose nodes were touched is still the same chain. */
  lemma {:induction false} ChainFrame(nodes: map<nat, Node>, u: map<nat, Node>, l: NodeLevel, c: seq<nat>)
    requires ChainOk(nodes, l, c)
    requires forall k :: 0 <= k < |c| ==> c[k] in u && u[c[k]] == nodes[c[k]]
    ensures ChainOk(u, l, c)
  {
    forall k | 0 <= k < |c| ensures c[k] in u && u[c[k]].prev == Prev(c, k) && u[c[k]].next == Next(c, k) {
      NeighboursLive(nodes, c, k);
    }
  }

  lemma {:induction false} AppendTouches(nodes: map<nat, Node>, l: NodeLevel, n: nat, m: nat)
    requires n in nodes && (l.tail.Some? ==> l.tail.value in nodes)
    ensures m in AppendNode(nodes, l, n) <==> m in nodes
    ensures m in nodes ==> AppendNode(nodes, l, n)[m].order == nodes[m].order
    ensures m in nodes && m != n && l.tail != Some(m) ==> AppendNode(nodes, l, n)[m] == nodes[m]
  {
  }

  lemma {:induction false} UnlinkTouches(nodes: map<nat, Node>, n: nat, m: nat)
    requires n in nodes
    requires nodes[n].prev.Some? ==> nodes[n].prev.value in nodes
    requires nodes[n].next.Some? ==> nodes[n].next.value in nodes
    ensures m in UnlinkNode(nodes, n) <==> m in nodes
    ensures m in nodes ==> UnlinkNode(nodes, n)[m].order == nodes[m].order
    ensures m in nodes && nodes[n].prev != Some(m) && nodes[n].next != Some(m) ==> UnlinkNode(nodes, n)[m] == nodes[m]
  {
  }
}
