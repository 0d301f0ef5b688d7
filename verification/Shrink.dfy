/** The delta-debugging shrinker: chunk and single removal, field simplification and renumbering to a fixpoint. */
module Shrink {
  import opened Types
  import opened Engine
  import opened Renumber

  type Predicate = seq<Command> -> bool

  function Without(cs: seq<Command>, i: nat, n: nat): seq<Command>
    requires i + n <= |cs|
  {
    cs[..i] + cs[i + n..]
  }

  function WithMinQuantity(c: Command): Command {
    match c
    case NewLimit(symbol, id, side, price, _, tif) => NewLimit(symbol, id, side, price, 1, tif)
    case NewMarket(symbol, id, side, _) => NewMarket(symbol, id, side, 1)
    case ModifyOrder(symbol, id, price, _) => ModifyOrder(symbol, id, price, 1)
    case _ => c
  }

  function WithMinPrice(c: Command): Command {
    match c
    case NewLimit(symbol, id, side, _, quantity, tif) => NewLimit(symbol, id, side, 1, quantity, tif)
    case ModifyOrder(symbol, id, _, quantity) => ModifyOrder(symbol, id, 1, quantity)
    case _ => c
  }

  // ---- The termination measure ---------------------------------------------------------------

  /** How many commands a simplifier would still change. */
  function Unsimplified(cs: seq<Command>, simplify: Command -> Command): nat {
    if cs == [] then 0 else (if simplify(cs[0]) != cs[0] then 1 else 0) + Unsimplified(cs[1..], simplify)
  }

  ghost function Noncanonical(cs: seq<Command>): nat {
    if Renumbered(cs) == cs then 0 else 1
  }

  /** Length first, then quantities other than 1, then prices other than 1, then numbering. */
  ghost predicate Simpler(a: seq<Command>, b: seq<Command>) {
    || |a| < |b|
    || (|a| == |b| &&
        (var qa, qb := Unsimplified(a, WithMinQuantity), Unsimplified(b, WithMinQuantity);
         || qa < qb
         || (qa == qb &&
             (var pa, pb := Unsimplified(a, WithMinPrice), Unsimplified(b, WithMinPrice);
              || pa < pb
              || (pa == pb && Noncanonical(a) < Noncanonical(b))))))
  }

  lemma {:induction false} SimplerChains(a: seq<Command>, b: seq<Command>, c: seq<Command>)
    requires Simpler(a, b) && Simpler(b, c)
    ensures Simpler(a, c)
  {
    hide Unsimplified, Noncanonical;
  }

  /** A pass either left the stream alone or made it simpler. */
  ghost predicate Reduced(out: seq<Command>, cs: seq<Command>, changed: bool) {
    if changed then Simpler(out, cs) else out == cs
  }

  lemma {:induction false} ReducedChains(a: seq<Command>, b: seq<Command>, c: seq<Command>, x: bool, y: bool)
    requires Reduced(a, b, x) && Reduced(b, c, y)
    ensures Reduced(a, c, x || y)
  {
    hide Simpler;
    if x && y {
      SimplerChains(a, b, c);
    }
  }

  lemma {:induction false} ShorterIsSimpler(a: seq<Command>, b: seq<Command>)
    requires |a| < |b|
    ensures Simpler(a, b)
  {
    hide Unsimplified, Noncanonical;
  }

  lemma {:induction false} UnsimplifiedAt(cs: seq<Command>, i: nat, c: Command, f: Command -> Command)
    requires i < |cs|
    ensures Unsimplified(cs[i := c], f) + (if f(cs[i]) != cs[i] then 1 else 0)
            == Unsimplified(cs, f) + (if f(c) != c then 1 else 0)
    decreases i
  {
    if i > 0 {
      UnsimplifiedAt(cs[1..], i - 1, c, f);
      assert cs[i := c][1..] == cs[1..][i - 1 := c];
    } else {
      assert cs[0 := c][1..] == cs[1..];
    }
  }

  lemma {:induction false} QuantityStepIsSimpler(cs: seq<Command>, i: nat)
    requires i < |cs| && WithMinQuantity(cs[i]) != cs[i]
    ensures Simpler(cs[i := WithMinQuantity(cs[i])], cs)
  {
    hide Unsimplified, Noncanonical;
    UnsimplifiedAt(cs, i, WithMinQuantity(cs[i]), WithMinQuantity);
  }

  lemma {:induction false} PriceStepIsSimpler(cs: seq<Command>, i: nat)
    requires i < |cs| && WithMinPrice(cs[i]) != cs[i]
    ensures Simpler(cs[i := WithMinPrice(cs[i])], cs)
  {
    hide Unsimplified, Noncanonical;
    UnsimplifiedAt(cs, i, WithMinPrice(cs[i]), WithMinQuantity);
    UnsimplifiedAt(cs, i, WithMinPrice(cs[i]), WithMinPrice);
  }

  lemma {:induction false} UnsimplifiedHead(c: Command, rest: seq<Command>, f: Command -> Command)
    ensures Unsimplified([c] + rest, f) == (if f(c) != c then 1 else 0) + Unsimplified(rest, f)
  {
    assert ([c] + rest)[1..] == rest;
  }

  /** Renumbering never lengthens a stream and touches neither quantities nor prices. */
  lemma {:induction false} RenumberCounts(cs: seq<Command>, referenced: set<SymbolId>, n: nat, k: nat,
                                          ids: map<OrderId, OrderId>)
    ensures var out := RenumberFrom(cs, referenced, n, k, ids);
            && |out| <= |cs|
            && Unsimplified(out, WithMinQuantity) == Unsimplified(cs, WithMinQuantity)
            && Unsimplified(out, WithMinPrice) == Unsimplified(cs, WithMinPrice)
    decreases |cs|
  {
    hide RenumberFrom, Unsimplified, SymbolName, NewSymbol, Use, Rank;
    assert cs[0..] == cs;
    Unrolls(cs, 0, referenced, n, k, ids);
    if cs != [] {
      var c := cs[0];
      RenumberCounts(cs[1..], referenced, n, SeenAfter(c, k), UsedAfter(c, ids));
      var rest := RenumberFrom(cs[1..], referenced, n, SeenAfter(c, k), UsedAfter(c, ids));
      assert cs == [c] + cs[1..];
      UnsimplifiedHead(c, cs[1..], WithMinQuantity);
      UnsimplifiedHead(c, cs[1..], WithMinPrice);
      if Piece(c, referenced, n, k, ids) == [] {
        assert [] + rest == rest;
      } else {
        UnsimplifiedHead(Piece(c, referenced, n, k, ids)[0], rest, WithMinQuantity);
        UnsimplifiedHead(Piece(c, referenced, n, k, ids)[0], rest, WithMinPrice);
      }
    }
  }

  lemma {:induction false} RenumberIsSimpler(cs: seq<Command>)
    requires Renumbered(cs) != cs
    ensures Simpler(Renumbered(cs), cs)
  {
    hide RenumberFrom, Unsimplified, Referenced, Registrations, DistinctNames;
    RenumberIdempotent(cs);
    RenumberCounts(cs, Referenced(cs), Registrations(cs), 0, map[]);
  }

  // ---- What is left when nothing helps any more ----------------------------------------------

  ghost predicate OneMinimal(cs: seq<Command>, fails: Predicate) {
    forall i :: 0 <= i < |cs| ==> !fails(Without(cs, i, 1))
  }

  ghost predicate FieldsMinimal(cs: seq<Command>, fails: Predicate, simplify: Command -> Command) {
    forall i :: 0 <= i < |cs| && simplify(cs[i]) != cs[i] ==> !fails(cs[i := simplify(cs[i])])
  }

  ghost predicate Irreducible(cs: seq<Command>, fails: Predicate) {
    && OneMinimal(cs, fails)
    && FieldsMinimal(cs, fails, WithMinQuantity) && FieldsMinimal(cs, fails, WithMinPrice)
    && (Renumbered(cs) == cs || !fails(Renumbered(cs)))
  }

  /** `d` is `c` with its quantity, or its price, set to one; every other field is the same. */
  predicate OneFieldToOne(c: Command, d: Command) {
    match d
    case RegisterSymbol(_) => false
    case NewLimit(symbol, id, side, price, quantity, tif) =>
      && c.NewLimit? && c.symbol == symbol && c.id == id && c.side == side && c.tif == tif
      && ((c.price == price && quantity == 1) || (c.quantity == quantity && price == 1))
    case NewMarket(symbol, id, side, quantity) =>
      c.NewMarket? && c.symbol == symbol && c.id == id && c.side == side && quantity == 1
    case CancelOrder(_, _) => false
    case ModifyOrder(symbol, id, price, quantity) =>
      && c.ModifyOrder? && c.symbol == symbol && c.id == id
      && ((c.price == price && quantity == 1) || (c.quantity == quantity && price == 1))
  }

  /** On an irreducible stream, dropping any command or setting any one field to one loses the failure. */
  lemma {:induction false} IrreducibleMeans(cs: seq<Command>, fails: Predicate)
    requires Irreducible(cs, fails)
    ensures forall i :: 0 <= i < |cs| ==> !fails(cs[..i] + cs[i + 1..])
    ensures forall i, d: Command :: 0 <= i < |cs| && OneFieldToOne(cs[i], d) && d != cs[i] ==> !fails(cs[i := d])
    ensures Renumbered(cs) != cs ==> !fails(Renumbered(cs))
  {
    hide Renumbered;
    forall i | 0 <= i < |cs| ensures !fails(cs[..i] + cs[i + 1..]) {
      assert Without(cs, i, 1) == cs[..i] + cs[i + 1..];
    }
    forall i, d: Command | 0 <= i < |cs| && OneFieldToOne(cs[i], d) && d != cs[i] ensures !fails(cs[i := d]) {
      assert d == WithMinQuantity(cs[i]) || d == WithMinPrice(cs[i]);
    }
  }

  // ---- The passes ----------------------------------------------------------------------------

  method TryRemoveChunks(cs: seq<Command>, fails: Predicate, n: nat) returns (out: seq<Command>, changed: bool)
    requires n >= 1 && fails(cs)
    ensures fails(out) && Reduced(out, cs, changed) && (changed ==> |out| < |cs|)
    ensures n == 1 && !changed ==> OneMinimal(cs, fails)
  {
    hide Simpler;
    out, changed := cs, false;
    var i := 0;
    while i + n <= |out|
      invariant fails(out) && (changed ==> |out| < |cs|) && (!changed ==> out == cs)
      invariant n == 1 && !changed ==> forall j :: 0 <= j < i && j < |cs| ==> !fails(Without(cs, j, 1))
      decreases |out| - i
    {
      var candidate := Without(out, i, n);
      if fails(candidate) {
        out, changed := candidate, true;
      } else {
        i := i + n;
      }
    }
    if changed {
      ShorterIsSimpler(out, cs);
    }
  }

  method RemoveRanges(cs: seq<Command>, fails: Predicate) returns (out: seq<Command>, changed: bool)
    requires fails(cs)
    ensures fails(out) && Reduced(out, cs, changed)
    ensures !changed ==> OneMinimal(cs, fails)
  {
    hide Simpler, OneMinimal;
    out, changed := cs, false;
    var n := if |cs| > 1 then |cs| / 2 else 1;
    while n > 1
      invariant fails(out) && Reduced(out, cs, changed)
    {
      var next, more := TryRemoveChunks(out, fails, n);
      ReducedChains(next, out, cs, more, changed);
      out, changed := next, more || changed;
      n := n / 2;
    }
    var next, more := TryRemoveChunks(out, fails, 1);
    ReducedChains(next, out, cs, more, changed);
    out, changed := next, more || changed;
  }

  /** Each step of this simplifier makes a stream simpler. */
  ghost predicate Simplifies(simplify: Command -> Command) {
    forall cs: seq<Command>, i :: 0 <= i < |cs| && simplify(cs[i]) != cs[i] ==> Simpler(cs[i := simplify(cs[i])], cs)
  }

  method SimplifyFields(cs: seq<Command>, fails: Predicate, simplify: Command -> Command)
    returns (out: seq<Command>, changed: bool)
    requires fails(cs) && Simplifies(simplify)
    ensures fails(out) && Reduced(out, cs, changed)
    ensures !changed ==> FieldsMinimal(cs, fails, simplify)
  {
    hide Simpler;
    out, changed := cs, false;
    var i := 0;
    while i < |out|
      invariant 0 <= i <= |out| && fails(out) && Reduced(out, cs, changed)
      invariant !changed ==>
                  forall j :: 0 <= j < i && simplify(cs[j]) != cs[j] ==> !fails(cs[j := simplify(cs[j])])
      decreases |out| - i
    {
      var candidate := out[i := simplify(out[i])];
      if candidate[i] != out[i] && fails(candidate) {
        ReducedChains(candidate, out, cs, true, changed);
        out, changed := candidate, true;
      }
      i := i + 1;
    }
  }

  method RenumberPass(cs: seq<Command>, fails: Predicate) returns (out: seq<Command>, changed: bool)
    requires fails(cs)
    ensures fails(out) && Reduced(out, cs, changed)
    ensures !changed ==> Renumbered(cs) == cs || !fails(Renumbered(cs))
  {
    hide Simpler, Renumbered;
    var candidate := Renumber.Renumber(cs);
    if candidate != cs && fails(candidate) {
      RenumberIsSimpler(cs);
      return candidate, true;
    }
    return cs, false;
  }

  method RunReductionPass(cs: seq<Command>, fails: Predicate) returns (out: seq<Command>, changed: bool)
    requires fails(cs)
    ensures fails(out) && Reduced(out, cs, changed)
    ensures !changed ==> Irreducible(cs, fails)
  {
    hide Simpler, Renumbered, OneMinimal, FieldsMinimal;
    BothSimplify();
    var a, x := RemoveRanges(cs, fails);
    var b, y := SimplifyFields(a, fails, WithMinQuantity);
    ReducedChains(b, a, cs, y, x);
    var c, z := SimplifyFields(b, fails, WithMinPrice);
    ReducedChains(c, b, cs, z, y || x);
    var d, w := RenumberPass(c, fails);
    ReducedChains(d, c, cs, w, z || y || x);
    return d, w || z || y || x;
  }

  lemma {:induction false} BothSimplify()
    ensures Simplifies(WithMinQuantity) && Simplifies(WithMinPrice)
  {
    hide Simpler, WithMinQuantity, WithMinPrice;
    forall cs: seq<Command>, i | 0 <= i < |cs| && WithMinQuantity(cs[i]) != cs[i]
      ensures Simpler(cs[i := WithMinQuantity(cs[i])], cs)
    {
      QuantityStepIsSimpler(cs, i);
    }
    forall cs: seq<Command>, i | 0 <= i < |cs| && WithMinPrice(cs[i]) != cs[i]
      ensures Simpler(cs[i := WithMinPrice(cs[i])], cs)
    {
      PriceStepIsSimpler(cs, i);
    }
  }

  /** The smallest stream the passes can reach still fails, and none of their single steps applies to it. */
  method Shrink(cs: seq<Command>, fails: Predicate) returns (out: seq<Command>, passes: nat)
    ensures !fails(cs) ==> out == cs && passes == 0
    ensures fails(cs) ==> fails(out) && Irreducible(out, fails) && (out == cs || Simpler(out, cs)) && passes >= 1
  {
    hide Unsimplified, Noncanonical, Irreducible;
    out, passes := cs, 0;
    if !fails(cs) {
      return;
    }
    var changed := true;
    while changed
      invariant fails(out) && (out == cs || Simpler(out, cs))
      invariant !changed ==> Irreducible(out, fails) && passes >= 1
      decreases |out|, Unsimplified(out, WithMinQuantity), Unsimplified(out, WithMinPrice), Noncanonical(out),
                if changed then 1 else 0
    {
      passes := passes + 1;
      var next, more := RunReductionPass(out, fails);
      if more && out != cs {
        SimplerChains(next, out, cs);
      }
      out, changed := next, more;
    }
  }
}
