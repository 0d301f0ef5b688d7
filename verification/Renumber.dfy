/** Canonical renumbering of a command stream: symbols by registration order, order ids by first use. */
module Renumber {
  import opened Types
  import opened Engine
  import Decimal

  // ---- The stream as renumbering sees it -----------------------------------------------------

  /** How many registrations a stream holds; the k-th one owns symbol id k. */
  function Registrations(cs: seq<Command>): nat {
    if cs == [] then 0 else (if cs[0].RegisterSymbol? then 1 else 0) + Registrations(cs[1..])
  }

  ghost predicate DistinctNames(cs: seq<Command>) {
    forall i, j :: 0 <= i < j < |cs| && cs[i].RegisterSymbol? && cs[j].RegisterSymbol? ==> cs[i].name != cs[j].name
  }

  function Referenced(cs: seq<Command>): set<SymbolId> {
    if cs == [] then {} else (if cs[0].RegisterSymbol? then {} else {cs[0].symbol}) + Referenced(cs[1..])
  }

  /** How many referenced symbols are below `s`. */
  function Rank(referenced: set<SymbolId>, s: nat): (r: nat)
    ensures r <= s
  {
    if s == 0 then 0 else Rank(referenced, s - 1) + (if s - 1 in referenced then 1 else 0)
  }

  /** The new id of a symbol in a stream with `n` registrations; unregistered references keep theirs. */
  function NewSymbol(referenced: set<SymbolId>, n: nat, s: SymbolId): SymbolId {
    if s < n && s in referenced then Rank(referenced, s) else s
  }

  function SymbolName(s: SymbolId): string {
    "S" + Decimal.Render(s)
  }

  /** The ids given out so far, with `id` given the next one if it is new. */
  function Use(ids: map<OrderId, OrderId>, id: OrderId): (r: map<OrderId, OrderId>)
    ensures id in r
  {
    if id in ids then ids else ids[id := |ids|]
  }

  function Rename(c: Command, symbol: SymbolId, id: OrderId): (r: Command)
    requires !c.RegisterSymbol?
    ensures !r.RegisterSymbol? && r.symbol == symbol && r.id == id
  {
    match c
    case NewLimit(_, _, side, price, quantity, tif) => NewLimit(symbol, id, side, price, quantity, tif)
    case NewMarket(_, _, side, quantity) => NewMarket(symbol, id, side, quantity)
    case CancelOrder(_, _) => CancelOrder(symbol, id)
    case ModifyOrder(_, _, price, quantity) => ModifyOrder(symbol, id, price, quantity)
  }

  /** The rest of a stream with `n` registrations, renumbered when `k` registrations and `ids` have been seen. */
  function RenumberFrom(cs: seq<Command>, referenced: set<SymbolId>, n: nat, k: nat, ids: map<OrderId, OrderId>):
    seq<Command>
    decreases |cs|
  {
    if cs == [] then []
    else if cs[0].RegisterSymbol? then
      (if k in referenced then [RegisterSymbol(SymbolName(Rank(referenced, k)))] else [])
      + RenumberFrom(cs[1..], referenced, n, k + 1, ids)
    else
      var used := Use(ids, cs[0].id);
      [Rename(cs[0], NewSymbol(referenced, n, cs[0].symbol), used[cs[0].id])]
      + RenumberFrom(cs[1..], referenced, n, k, used)
  }

  /** A stream that repeats a registration name is left alone. */
  ghost function Renumbered(cs: seq<Command>): seq<Command> {
    if !DistinctNames(cs) then cs else RenumberFrom(cs, Referenced(cs), Registrations(cs), 0, map[])
  }

  // ---- The program ---------------------------------------------------------------------------

  method HasDuplicateNames(cs: seq<Command>) returns (found: bool)
    ensures found <==> !DistinctNames(cs)
  {
    var names: set<string> := {};
    var i := 0;
    while i < |cs|
      invariant 0 <= i <= |cs| && DistinctNames(cs[..i])
      invariant forall name :: name in names <==> exists j :: 0 <= j < i && cs[j].RegisterSymbol? && cs[j].name == name
    {
      if cs[i].RegisterSymbol? {
        if cs[i].name in names {
          return true;
        }
        names := names + {cs[i].name};
      }
      i := i + 1;
    }
    assert cs[..i] == cs;
    return false;
  }

  method CollectReferenced(cs: seq<Command>) returns (referenced: set<SymbolId>)
    ensures referenced == Referenced(cs)
  {
    referenced := {};
    var i := 0;
    assert cs[0..] == cs;
    while i < |cs|
      invariant 0 <= i <= |cs| && Referenced(cs) == referenced + Referenced(cs[i..])
    {
      assert cs[i..][0] == cs[i] && cs[i..][1..] == cs[i + 1..];
      if !cs[i].RegisterSymbol? {
        referenced := referenced + {cs[i].symbol};
      }
      i := i + 1;
    }
  }

  /** Only registered symbols that are referenced get a new id. */
  ghost predicate IsRemap(remap: map<SymbolId, SymbolId>, referenced: set<SymbolId>, n: nat) {
    && (forall s: SymbolId :: s in remap <==> s < n && s in referenced)
    && (forall s :: s in remap ==> remap[s] == Rank(referenced, s))
  }

  method BuildSymbolRemap(cs: seq<Command>, referenced: set<SymbolId>) returns (remap: map<SymbolId, SymbolId>)
    ensures IsRemap(remap, referenced, Registrations(cs))
  {
    remap := map[];
    var oldSymbol, newSymbol, i := 0, 0, 0;
    assert cs[0..] == cs;
    while i < |cs|
      invariant 0 <= i <= |cs| && oldSymbol + Registrations(cs[i..]) == Registrations(cs)
      invariant newSymbol == Rank(referenced, oldSymbol) && IsRemap(remap, referenced, oldSymbol)
    {
      assert cs[i..][0] == cs[i] && cs[i..][1..] == cs[i + 1..];
      if cs[i].RegisterSymbol? {
        if oldSymbol in referenced {
          remap := remap[oldSymbol := newSymbol];
          newSymbol := newSymbol + 1;
        }
        oldSymbol := oldSymbol + 1;
      }
      i := i + 1;
    }
  }

  /** What one command contributes. */
  function Piece(c: Command, referenced: set<SymbolId>, n: nat, k: nat, ids: map<OrderId, OrderId>): seq<Command> {
    if c.RegisterSymbol? then if k in referenced then [RegisterSymbol(SymbolName(Rank(referenced, k)))] else []
    else [Rename(c, NewSymbol(referenced, n, c.symbol), Use(ids, c.id)[c.id])]
  }

  function SeenAfter(c: Command, k: nat): nat {
    if c.RegisterSymbol? then k + 1 else k
  }

  function UsedAfter(c: Command, ids: map<OrderId, OrderId>): map<OrderId, OrderId> {
    if c.RegisterSymbol? then ids else Use(ids, c.id)
  }

  lemma {:induction false} Unrolls(cs: seq<Command>, i: nat, referenced: set<SymbolId>, n: nat, k: nat,
                                   ids: map<OrderId, OrderId>)
    requires i <= |cs|
    ensures i == |cs| ==> RenumberFrom(cs[i..], referenced, n, k, ids) == []
    ensures i < |cs| ==>
              RenumberFrom(cs[i..], referenced, n, k, ids)
              == Piece(cs[i], referenced, n, k, ids)
                 + RenumberFrom(cs[i + 1..], referenced, n, SeenAfter(cs[i], k), UsedAfter(cs[i], ids))
    ensures i < |cs| ==> k + Registrations(cs[i..]) == SeenAfter(cs[i], k) + Registrations(cs[i + 1..])
  {
    if i < |cs| {
      assert cs[i..][0] == cs[i] && cs[i..][1..] == cs[i + 1..];
    }
  }

  method Renumber(cs: seq<Command>) returns (out: seq<Command>)
    ensures out == Renumbered(cs)
  {
    hide RenumberFrom, Referenced, Registrations;
    var duplicate := HasDuplicateNames(cs);
    if duplicate {
      return cs;
    }
    var referenced := CollectReferenced(cs);
    var remap := BuildSymbolRemap(cs, referenced);
    ghost var n := Registrations(cs);
    var ids: map<OrderId, OrderId>, nextId, oldSymbol := map[], 0, 0;
    out := [];
    var i := 0;
    assert cs[0..] == cs;
    while i < |cs|
      invariant 0 <= i <= |cs| && nextId == |ids| && oldSymbol + Registrations(cs[i..]) == n
      invariant Renumbered(cs) == out + RenumberFrom(cs[i..], referenced, n, oldSymbol, ids)
    {
      var c := cs[i];
      Unrolls(cs, i, referenced, n, oldSymbol, ids);
      ghost var was, piece := out, Piece(c, referenced, n, oldSymbol, ids);
      ghost var rest := RenumberFrom(cs[i + 1..], referenced, n, SeenAfter(c, oldSymbol), UsedAfter(c, ids));
      assert out + (piece + rest) == out + piece + rest;
      if c.RegisterSymbol? {
        if oldSymbol in remap {
          out := out + [RegisterSymbol(SymbolName(remap[oldSymbol]))];
        }
        oldSymbol := oldSymbol + 1;
      } else {
        if c.id !in ids {
          ids := ids[c.id := nextId];
          nextId := nextId + 1;
        }
        var symbol := if c.symbol in remap then remap[c.symbol] else c.symbol;
        out := out + [Rename(c, symbol, ids[c.id])];
      }
      assert out == was + piece;
      i := i + 1;
    }
    Unrolls(cs, i, referenced, n, oldSymbol, ids);
  }

  // ---- Ranks ---------------------------------------------------------------------------------

  lemma {:induction false} RankGrows(referenced: set<SymbolId>, a: nat, b: nat)
    requires a <= b
    ensures Rank(referenced, a) <= Rank(referenced, b)
    ensures a in referenced && a < b ==> Rank(referenced, a) < Rank(referenced, b)
    decreases b
  {
    if a < b {
      RankGrows(referenced, a, b - 1);
    }
  }

  /** Every new id below the number of kept registrations is some referenced symbol's. */
  lemma {:induction false} RankHits(referenced: set<SymbolId>, n: nat, r: nat) returns (s: nat)
    requires r < Rank(referenced, n)
    ensures s < n && s in referenced && Rank(referenced, s) == r
    decreases n
  {
    if n - 1 in referenced && Rank(referenced, n - 1) == r {
      s := n - 1;
    } else {
      s := RankHits(referenced, n - 1, r);
    }
  }

  lemma {:induction false} RankOfAll(referenced: set<SymbolId>, s: nat)
    requires forall j: nat :: j < s ==> j in referenced
    ensures Rank(referenced, s) == s
    decreases s
  {
    if s > 0 {
      RankOfAll(referenced, s - 1);
    }
  }

  /** Distinct symbols that occur in the stream keep distinct ids. */
  lemma {:induction false} NewSymbolInjective(referenced: set<SymbolId>, n: nat, a: SymbolId, b: SymbolId)
    requires a in referenced && b in referenced && a < b
    ensures NewSymbol(referenced, n, a) != NewSymbol(referenced, n, b)
  {
    RankGrows(referenced, a, b);
  }

  lemma {:induction false} SymbolNameInjective(a: SymbolId, b: SymbolId)
    requires SymbolName(a) == SymbolName(b)
    ensures a == b
  {
    assert SymbolName(a)[1..] == Decimal.Render(a) && SymbolName(b)[1..] == Decimal.Render(b);
    Decimal.ValueOfRender(a);
    Decimal.ValueOfRender(b);
  }

  // ---- Renumbering twice is renumbering once -------------------------------------------------

  lemma {:induction false} HeadAndTail(c: Command, rest: seq<Command>)
    ensures Registrations([c] + rest) == (if c.RegisterSymbol? then 1 else 0) + Registrations(rest)
    ensures Referenced([c] + rest) == (if c.RegisterSymbol? then {} else {c.symbol}) + Referenced(rest)
  {
    assert ([c] + rest)[1..] == rest;
  }

  lemma {:induction false} RankStep(referenced: set<SymbolId>, k: nat)
    ensures Rank(referenced, k + 1) == Rank(referenced, k) + if k in referenced then 1 else 0
  {
  }

  lemma {:induction false} NoRegistrations()
    ensures Registrations([]) == 0
  {
  }

  lemma {:induction false} OutRegistrations(cs: seq<Command>, referenced: set<SymbolId>, n: nat, k: nat,
                                            ids: map<OrderId, OrderId>)
    ensures Rank(referenced, k) + Registrations(RenumberFrom(cs, referenced, n, k, ids))
            == Rank(referenced, k + Registrations(cs))
    decreases |cs|
  {
    hide RenumberFrom, Registrations, SymbolName, Rank, Referenced;
    NoRegistrations();
    RankStep(referenced, k);
    assert cs[0..] == cs;
    Unrolls(cs, 0, referenced, n, k, ids);
    if cs != [] {
      var seen, used := SeenAfter(cs[0], k), UsedAfter(cs[0], ids);
      var rest := RenumberFrom(cs[1..], referenced, n, seen, used);
      OutRegistrations(cs[1..], referenced, n, seen, used);
      if cs[0].RegisterSymbol? {
        if k in referenced {
          HeadAndTail(RegisterSymbol(SymbolName(Rank(referenced, k))), rest);
        } else {
          assert [] + rest == rest;
        }
      } else {
        HeadAndTail(Piece(cs[0], referenced, n, k, ids)[0], rest);
      }
    }
  }

  lemma {:induction false} OutReferenced(cs: seq<Command>, referenced: set<SymbolId>, n: nat, k: nat,
                                         ids: map<OrderId, OrderId>,
                                         s: SymbolId)
    requires s in Referenced(cs)
    ensures NewSymbol(referenced, n, s) in Referenced(RenumberFrom(cs, referenced, n, k, ids))
    decreases |cs|
  {
    var seen, used := SeenAfter(cs[0], k), UsedAfter(cs[0], ids);
    var rest := RenumberFrom(cs[1..], referenced, n, seen, used);
    if s in Referenced(cs[1..]) {
      OutReferenced(cs[1..], referenced, n, seen, used, s);
    }
    if Piece(cs[0], referenced, n, k, ids) == [] {
      assert [] + rest == rest;
    } else {
      HeadAndTail(Piece(cs[0], referenced, n, k, ids)[0], rest);
    }
  }

  ghost predicate NamedFrom(name: string, r: nat) {
    exists s: SymbolId :: s >= r && name == SymbolName(s)
  }

  ghost predicate AllNamedFrom(cs: seq<Command>, r: nat) {
    forall i :: 0 <= i < |cs| && cs[i].RegisterSymbol? ==> NamedFrom(cs[i].name, r)
  }

  lemma {:induction false} OutNames(cs: seq<Command>, referenced: set<SymbolId>, n: nat, k: nat,
                                    ids: map<OrderId, OrderId>)
    ensures DistinctNames(RenumberFrom(cs, referenced, n, k, ids))
    ensures AllNamedFrom(RenumberFrom(cs, referenced, n, k, ids), Rank(referenced, k))
    decreases |cs|
  {
    hide SymbolName;
    if cs != [] {
      var seen, used := SeenAfter(cs[0], k), UsedAfter(cs[0], ids);
      var rest := RenumberFrom(cs[1..], referenced, n, seen, used);
      OutNames(cs[1..], referenced, n, seen, used);
      RankGrows(referenced, k, seen);
      if cs[0].RegisterSymbol? && k !in referenced {
        assert [] + rest == rest;
      } else {
        PrependName(Piece(cs[0], referenced, n, k, ids)[0], rest, Rank(referenced, k), Rank(referenced, seen));
      }
    }
  }

  lemma {:induction false} PrependName(c: Command, rest: seq<Command>, r: nat, after: nat)
    requires r <= after && DistinctNames(rest) && AllNamedFrom(rest, after)
    requires c.RegisterSymbol? ==> c.name == SymbolName(r) && after == r + 1
    ensures DistinctNames([c] + rest) && AllNamedFrom([c] + rest, r)
  {
    hide SymbolName;
    var all := [c] + rest;
    forall i | 0 <= i < |all| && all[i].RegisterSymbol? ensures NamedFrom(all[i].name, r) {
      if i > 0 {
        assert all[i] == rest[i - 1];
        var s: SymbolId :| s >= after && rest[i - 1].name == SymbolName(s);
      }
    }
    forall i, j | 0 <= i < j < |all| && all[i].RegisterSymbol? && all[j].RegisterSymbol?
      ensures all[i].name != all[j].name
    {
      assert all[j] == rest[j - 1];
      if i == 0 {
        var s: SymbolId :| s >= after && rest[j - 1].name == SymbolName(s);
        if SymbolName(s) == SymbolName(r) { SymbolNameInjective(s, r); }
      } else {
        assert all[i] == rest[i - 1];
      }
    }
  }

  ghost predicate IdentityBelow(ids: map<OrderId, OrderId>, n: nat) {
    |ids| == n && forall j: OrderId :: (j in ids <==> j < n) && (j in ids ==> ids[j] == j)
  }

  ghost predicate CompactIds(ids: map<OrderId, OrderId>) {
    forall id :: id in ids ==> ids[id] < |ids|
  }

  lemma {:induction false} UseAgain(ids: map<OrderId, OrderId>, again: map<OrderId, OrderId>, id: OrderId)
    requires CompactIds(ids) && IdentityBelow(again, |ids|)
    ensures var used := Use(ids, id);
            && CompactIds(used) && IdentityBelow(Use(again, used[id]), |used|)
            && Use(again, used[id])[used[id]] == used[id]
  {
  }

  /** A renumbered stream goes through the renumbering loop unchanged. */
  lemma {:induction false} Again(cs: seq<Command>, referenced: set<SymbolId>, n: nat, k: nat,
                                 ids: map<OrderId, OrderId>,
                                 again: set<SymbolId>, m: nat, same: map<OrderId, OrderId>)
    requires k + Registrations(cs) == n && m == Rank(referenced, n) && (forall j: nat :: j < m ==> j in again)
    requires CompactIds(ids) && IdentityBelow(same, |ids|)
    ensures var out := RenumberFrom(cs, referenced, n, k, ids);
            RenumberFrom(out, again, m, Rank(referenced, k), same) == out
    decreases |cs|
  {
    hide CompactIds, IdentityBelow, SymbolName, RenumberFrom, Registrations, Use;
    assert cs[0..] == cs;
    Unrolls(cs, 0, referenced, n, k, ids);
    if cs == [] {
      Unrolls([], 0, again, m, Rank(referenced, k), same);
    } else {
      var c := cs[0];
      var seen, used := SeenAfter(c, k), UsedAfter(c, ids);
      var rest := RenumberFrom(cs[1..], referenced, n, seen, used);
      var r := Rank(referenced, k);
      if c.RegisterSymbol? {
        Again(cs[1..], referenced, n, seen, ids, again, m, same);
        if k in referenced {
          RankGrows(referenced, k, n);
          RankOfAll(again, r);
          Unrolls([RegisterSymbol(SymbolName(r))] + rest, 0, again, m, r, same);
          TailIs(RegisterSymbol(SymbolName(r)), rest);
        } else {
          assert [] + rest == rest;
        }
      } else {
        UseAgain(ids, same, c.id);
        var d := Piece(c, referenced, n, k, ids)[0];
        Again(cs[1..], referenced, n, seen, used, again, m, Use(same, used[c.id]));
        if d.symbol < m { RankOfAll(again, d.symbol); }
        Unrolls([d] + rest, 0, again, m, r, same);
        TailIs(d, rest);
        assert Rename(d, d.symbol, d.id) == d;
      }
    }
  }

  lemma {:induction false} TailIs(c: Command, rest: seq<Command>)
    ensures ([c] + rest)[0..] == [c] + rest && ([c] + rest)[1..] == rest && ([c] + rest)[0] == c
  {
  }

  lemma {:induction false} RenumberIdempotent(cs: seq<Command>)
    ensures Renumbered(Renumbered(cs)) == Renumbered(cs)
  {
    hide RenumberFrom, Registrations;
    if DistinctNames(cs) {
      var referenced, n := Referenced(cs), Registrations(cs);
      var out := RenumberFrom(cs, referenced, n, 0, map[]);
      OutNames(cs, referenced, n, 0, map[]);
      OutRegistrations(cs, referenced, n, 0, map[]);
      var m := Registrations(out);
      forall j: nat | j < m ensures j in Referenced(out) {
        var s := RankHits(referenced, n, j);
        OutReferenced(cs, referenced, n, 0, map[], s);
      }
      Again(cs, referenced, n, 0, map[], Referenced(out), m, map[]);
    }
  }

  // ---- What a renumbered stream looks like ---------------------------------------------------

  /** Registrations are named S0, S1, ... from `r` on, and every new order id is the next number from `n` on. */
  predicate NumberedFrom(cs: seq<Command>, r: nat, n: nat)
    decreases |cs|
  {
    if cs == [] then true
    else if cs[0].RegisterSymbol? then cs[0].name == "S" + Decimal.Render(r) && NumberedFrom(cs[1..], r + 1, n)
    else cs[0].id <= n && NumberedFrom(cs[1..], r, if cs[0].id == n then n + 1 else n)
  }

  lemma {:induction false} NumbersInOrder(cs: seq<Command>, referenced: set<SymbolId>, n: nat, k: nat,
                                          ids: map<OrderId, OrderId>)
    requires CompactIds(ids)
    ensures NumberedFrom(RenumberFrom(cs, referenced, n, k, ids), Rank(referenced, k), |ids|)
    decreases |cs|
  {
    hide RenumberFrom, Registrations, Rank, CompactIds, Use;
    assert cs[0..] == cs;
    Unrolls(cs, 0, referenced, n, k, ids);
    if cs != [] {
      var c := cs[0];
      var seen, used := SeenAfter(c, k), UsedAfter(c, ids);
      var rest := RenumberFrom(cs[1..], referenced, n, seen, used);
      RankStep(referenced, k);
      if c.RegisterSymbol? {
        NumbersInOrder(cs[1..], referenced, n, seen, ids);
        assert [] + rest == rest;
        TailIs(RegisterSymbol(SymbolName(Rank(referenced, k))), rest);
      } else {
        UseIsNext(ids, c.id);
        NumbersInOrder(cs[1..], referenced, n, seen, used);
        TailIs(Piece(c, referenced, n, k, ids)[0], rest);
      }
    }
  }

  lemma {:induction false} UseIsNext(ids: map<OrderId, OrderId>, id: OrderId)
    requires CompactIds(ids)
    ensures var used := Use(ids, id);
            && CompactIds(used) && used[id] <= |ids| && |used| == if used[id] == |ids| then |ids| + 1 else |ids|
  {
  }

  /**
   * Renumbering makes a stream canonical: symbols nobody refers to are gone, the others are registered as
   * S0, S1, ... in order, and order ids count up from zero by first use.
   */
  lemma {:induction false} RenumberIsCanonical(cs: seq<Command>)
    requires DistinctNames(cs)
    ensures var out := Renumbered(cs);
            NumberedFrom(out, 0, 0) && forall s: nat :: s < Registrations(out) ==> s in Referenced(out)
  {
    hide RenumberFrom, Registrations, DistinctNames, NumberedFrom;
    var referenced, n := Referenced(cs), Registrations(cs);
    var out := RenumberFrom(cs, referenced, n, 0, map[]);
    NumbersInOrder(cs, referenced, n, 0, map[]);
    OutRegistrations(cs, referenced, n, 0, map[]);
    forall s: nat | s < Registrations(out) ensures s in Referenced(out) {
      var was := RankHits(referenced, n, s);
      OutReferenced(cs, referenced, n, 0, map[], was);
    }
  }
}
