/** Running a renumbered stream through gateway and engine is isomorphic to running the original. */
module RenumberIso {
  import opened Types
  import opened BookSpec
  import opened Engine
  import opened Gateway
  import opened Renumber
  import opened RenameBook

  /** How symbols and ids of one stream are renamed: its referenced symbols, its registrations, its final id map. */
  datatype Names = Names(referenced: set<SymbolId>, registrations: nat, ids: IdMap)

  function Sym(w: Names, s: SymbolId): SymbolId {
    NewSymbol(w.referenced, w.registrations, s)
  }

  function RenEvent(w: Names, v: Event): Event {
    match v
    case Accepted(n, s, id) => Accepted(n, Sym(w, s), Ren(w.ids, id))
    case Canceled(n, s, id) => Canceled(n, Sym(w, s), Ren(w.ids, id))
    case Modified(n, s, id) => Modified(n, Sym(w, s), Ren(w.ids, id))
    case Traded(n, s, taker, maker, price, quantity) =>
      Traded(n, Sym(w, s), Ren(w.ids, taker), Ren(w.ids, maker), price, quantity)
  }

  function RenEvents(w: Names, vs: seq<Event>): (r: seq<Event>)
    ensures |r| == |vs|
  {
    if vs == [] then [] else [RenEvent(w, vs[0])] + RenEvents(w, vs[1..])
  }

  /** Same verdict, same reason, the same events under new names. */
  function RenResult(w: Names, r: GatewayResult): GatewayResult {
    r.(events := RenEvents(w, r.events))
  }

  // ---- The relation between the two engines --------------------------------------------------

  /** The book of symbol `s` has the renamed book at its new id; a symbol nobody refers to is still empty. */
  ghost predicate BookMatches(w: Names, e: Engine, e2: Engine, s: SymbolId) {
    && s in e.books && KnownBook(w.ids, e.books[s])
    && (if s in w.referenced then
          var r := Rank(w.referenced, s);
          r in e2.books && e2.books[r] == RenBook(w.ids, e.books[s])
        else e.books[s] == EMPTY_BOOK)
  }

  ghost predicate Iso(w: Names, k: nat, e: Engine, e2: Engine) {
    && e.storage == e2.storage && e.seqNo == e2.seqNo
    && e.next == k && e2.next == Rank(w.referenced, k)
    && (forall s: SymbolId :: s in e.books <==> s < k)
    && (forall s: SymbolId :: s in e2.books <==> s < Rank(w.referenced, k))
    && (forall s: SymbolId :: s < k ==> BookMatches(w, e, e2, s))
  }

  lemma {:induction false} IsoFresh(w: Names, st: Storage)
    ensures Iso(w, 0, Fresh(st), Fresh(st))
  {
  }

  /** A symbol is registered on one side exactly when its new id is on the other. */
  lemma {:induction false} KnownTogether(w: Names, k: nat, e: Engine, e2: Engine, s: SymbolId)
    requires Iso(w, k, e, e2) && s in w.referenced && k <= w.registrations
    ensures s in e.books <==> Sym(w, s) in e2.books
    ensures s in e.books ==>
              && s < k && Sym(w, s) == Rank(w.referenced, s) && KnownBook(w.ids, e.books[s])
              && e2.books[Sym(w, s)] == RenBook(w.ids, e.books[s])
  {
    hide BookMatches;
    if s < k {
      RankGrows(w.referenced, s, k);
      assert BookMatches(w, e, e2, s);
      BookIs(w, e, e2, s);
    } else {
      RankGrows(w.referenced, k, s);
    }
  }

  lemma {:induction false} BookIs(w: Names, e: Engine, e2: Engine, s: SymbolId)
    requires BookMatches(w, e, e2, s) && s in w.referenced
    ensures s in e.books && KnownBook(w.ids, e.books[s])
    ensures Rank(w.referenced, s) in e2.books && e2.books[Rank(w.referenced, s)] == RenBook(w.ids, e.books[s])
  {
  }

  // ---- Emitting ------------------------------------------------------------------------------

  lemma {:induction false} RenTradeEvents(w: Names, last: nat, s: SymbolId, trades: seq<Trade>)
    ensures TradeEvents(last, Sym(w, s), RenTrades(w.ids, trades)) == RenEvents(w, TradeEvents(last, s, trades))
    decreases |trades|
  {
    hide Sym;
    if trades != [] {
      RenTradeEvents(w, last + 1, s, trades[1..]);
      var t := trades[0];
      var v := Traded(last + 1, s, t.takerId, t.makerId, t.price, t.quantity);
      EventCons(w, v, TradeEvents(last + 1, s, trades[1..]));
      assert RenTrades(w.ids, trades)[1..] == RenTrades(w.ids, trades[1..]);
    }
  }

  lemma {:induction false} EventCons(w: Names, v: Event, vs: seq<Event>)
    ensures RenEvents(w, [v] + vs) == [RenEvent(w, v)] + RenEvents(w, vs)
  {
    assert ([v] + vs)[1..] == vs;
  }

  /** Emitting renamed effects keeps the relation and renames the events. */
  lemma {:induction false} IsoEmit(w: Names, k: nat, e: Engine, e2: Engine, s: SymbolId, head: Event, a: Applied)
    requires Iso(w, k, e, e2) && s in w.referenced && s < k <= w.registrations && KnownBook(w.ids, a.book)
    ensures var x := Emit(e, s, head, a);
            var y := Emit(e2, Sym(w, s), RenEvent(w, head), RenApplied(w.ids, a));
            Iso(w, k, x.engine, y.engine) && y.events == RenEvents(w, x.events)
  {
    hide TradeEvents, RenTrades, RenBook, KnownBook, RenEvents, RenEvent, Rank;
    var x := Emit(e, s, head, a);
    var y := Emit(e2, Sym(w, s), RenEvent(w, head), RenApplied(w.ids, a));
    EventCons(w, head, TradeEvents(e.seqNo + 1, s, a.trades));
    RenTradeEvents(w, e.seqNo + 1, s, a.trades);
    RankGrows(w.referenced, s, k);
    forall o: SymbolId | o < k ensures BookMatches(w, x.engine, y.engine, o) {
      assert BookMatches(w, e, e2, o);
      if o in w.referenced && o != s {
        RanksDiffer(w.referenced, o, s);
      }
    }
  }

  lemma {:induction false} RanksDiffer(referenced: set<SymbolId>, a: SymbolId, b: SymbolId)
    requires a in referenced && b in referenced && a != b
    ensures Rank(referenced, a) != Rank(referenced, b)
  {
    if a < b { RankGrows(referenced, a, b); } else { RankGrows(referenced, b, a); }
  }

  lemma {:induction false} RenNoEvents(w: Names)
    ensures RenEvents(w, []) == []
  {
  }

  // ---- One command ---------------------------------------------------------------------------

  function RenCommand(w: Names, c: Command): Command
    requires !c.RegisterSymbol?
  {
    Rename(c, Sym(w, c.symbol), Ren(w.ids, c.id))
  }

  ghost predicate Covered(w: Names, c: Command) {
    !c.RegisterSymbol? ==> c.symbol in w.referenced && c.id in w.ids
  }

  ghost predicate Alike(w: Names, k: nat, a: Submitted, b: Submitted) {
    Iso(w, k, a.engine, b.engine) && b.result == RenResult(w, a.result)
  }

  lemma {:induction false} AlikeReject(w: Names, k: nat, e: Engine, e2: Engine, reason: RejectReason)
    requires Iso(w, k, e, e2)
    ensures Alike(w, k, Reject(e, reason), Reject(e2, reason))
  {
    hide Iso;
    RenNoEvents(w);
  }

  lemma {:induction false} AlikeAccept(w: Names, k: nat, e: Engine, e2: Engine, s: SymbolId, head: Event, a: Applied)
    requires Iso(w, k, e, e2) && s in w.referenced && s < k <= w.registrations && KnownBook(w.ids, a.book)
    ensures Alike(w, k, Accept(Emit(e, s, head, a)),
                  Accept(Emit(e2, Sym(w, s), RenEvent(w, head), RenApplied(w.ids, a))))
  {
    hide Iso, Emit;
    IsoEmit(w, k, e, e2, s, head, a);
  }

  lemma {:induction false} IsoLimit(w: Names, config: RiskConfig, k: nat, e: Engine, e2: Engine, c: Command)
    requires c.NewLimit? && Iso(w, k, e, e2) && k <= w.registrations && Covered(w, c) && Injective(w.ids)
    ensures Alike(w, k, Submit(e, config, c), Submit(e2, config, RenCommand(w, c)))
  {
    hide Iso, Alike, Sym, Emit, Contains, CanStoreLimit;
    hide AddLimit, CheckLimitValues, RenBook, RenApplied, KnownBook, Injective;
    hide Reject, Accept;
    KnownTogether(w, k, e, e2, c.symbol);
    SameStorage(w, k, e, e2);
    if c.symbol !in e.books {
      AlikeReject(w, k, e, e2, UnknownSymbol);
    } else {
      var b := e.books[c.symbol];
      RenFind(w.ids, b, c.id);
      RenGate(w.ids, e.storage, b, c.id, c.side, c.price, c.quantity, c.tif);
      RenLimit(w.ids, e.storage, b, c.id, c.side, c.price, c.quantity, c.tif);
      AlikeReject(w, k, e, e2, DuplicateOrderId);
      AlikeReject(w, k, e, e2, CheckLimitValues(config, c.price, c.quantity));
      AlikeReject(w, k, e, e2, StorageExhausted);
      AlikeAccept(w, k, e, e2, c.symbol, Accepted(e.seqNo + 1, c.symbol, c.id),
                  AddLimit(e.storage, b, c.id, c.side, c.price, c.quantity, c.tif));
    }
  }

  lemma {:induction false} SameStorage(w: Names, k: nat, e: Engine, e2: Engine)
    requires Iso(w, k, e, e2)
    ensures e.storage == e2.storage && e.seqNo == e2.seqNo
  {
  }

  lemma {:induction false} IsoMarket(w: Names, config: RiskConfig, k: nat, e: Engine, e2: Engine, c: Command)
    requires c.NewMarket? && Iso(w, k, e, e2) && k <= w.registrations && Covered(w, c) && Injective(w.ids)
    ensures Alike(w, k, Submit(e, config, c), Submit(e2, config, RenCommand(w, c)))
  {
    hide Iso, Alike, Sym, Emit, Contains, AddMarket, CheckMarket, RenBook, RenApplied, KnownBook, Injective;
    hide Reject, Accept;
    KnownTogether(w, k, e, e2, c.symbol);
    SameStorage(w, k, e, e2);
    if c.symbol !in e.books {
      AlikeReject(w, k, e, e2, UnknownSymbol);
    } else {
      var b := e.books[c.symbol];
      RenFind(w.ids, b, c.id);
      RenMarket(w.ids, b, c.id, c.side, c.quantity);
      AlikeReject(w, k, e, e2, DuplicateOrderId);
      AlikeReject(w, k, e, e2, CheckMarket(config, c.quantity));
      AlikeAccept(w, k, e, e2, c.symbol, Accepted(e.seqNo + 1, c.symbol, c.id), AddMarket(b, c.id, c.side, c.quantity));
    }
  }

  lemma {:induction false} IsoCancel(w: Names, config: RiskConfig, k: nat, e: Engine, e2: Engine, c: Command)
    requires c.CancelOrder? && Iso(w, k, e, e2) && k <= w.registrations && Covered(w, c) && Injective(w.ids)
    ensures Alike(w, k, Submit(e, config, c), Submit(e2, config, RenCommand(w, c)))
  {
    hide Iso, Alike, Sym, Emit, Contains, Cancel, RenBook, KnownBook, Injective, RenTrades;
    hide Reject, Accept;
    KnownTogether(w, k, e, e2, c.symbol);
    SameStorage(w, k, e, e2);
    if c.symbol !in e.books {
      AlikeReject(w, k, e, e2, UnknownSymbol);
    } else {
      var b := e.books[c.symbol];
      RenFind(w.ids, b, c.id);
      RenCancel(w.ids, b, c.id);
      RenNoTrades(w.ids);
      AlikeReject(w, k, e, e2, UnknownOrder);
      AlikeAccept(w, k, e, e2, c.symbol, Canceled(e.seqNo + 1, c.symbol, c.id), Applied(Cancel(b, c.id), []));
    }
  }

  lemma {:induction false} IsoModify(w: Names, config: RiskConfig, k: nat, e: Engine, e2: Engine, c: Command)
    requires c.ModifyOrder? && Iso(w, k, e, e2) && k <= w.registrations && Covered(w, c) && Injective(w.ids)
    ensures Alike(w, k, Submit(e, config, c), Submit(e2, config, RenCommand(w, c)))
  {
    hide Iso, Alike, Sym, Emit, Contains, Modify;
    hide CanApplyModify, CheckLimitValues, RenBook, RenApplied, KnownBook, Injective;
    hide Reject, Accept;
    KnownTogether(w, k, e, e2, c.symbol);
    SameStorage(w, k, e, e2);
    if c.symbol !in e.books {
      AlikeReject(w, k, e, e2, UnknownSymbol);
    } else {
      var b := e.books[c.symbol];
      RenFind(w.ids, b, c.id);
      RenModifyGate(w.ids, e.storage, b, c.id, c.price, c.quantity);
      RenModify(w.ids, e.storage, b, c.id, c.price, c.quantity);
      ZeroModifyApplies(e.storage, b, c.id, c.price);
      AlikeReject(w, k, e, e2, UnknownOrder);
      AlikeReject(w, k, e, e2, CheckLimitValues(config, c.price, c.quantity));
      AlikeReject(w, k, e, e2, StorageExhausted);
      AlikeAccept(w, k, e, e2, c.symbol, Modified(e.seqNo + 1, c.symbol, c.id),
                  Modify(e.storage, b, c.id, c.price, c.quantity));
    }
  }

  lemma {:induction false} IsoCommand(w: Names, config: RiskConfig, k: nat, e: Engine, e2: Engine, c: Command)
    requires !c.RegisterSymbol? && Iso(w, k, e, e2) && k <= w.registrations && Covered(w, c) && Injective(w.ids)
    ensures Alike(w, k, Submit(e, config, c), Submit(e2, config, RenCommand(w, c)))
  {
    hide Iso, Alike, Sym, Submit, Injective, Covered;
    match c
    case NewLimit(_, _, _, _, _, _) => IsoLimit(w, config, k, e, e2, c);
    case NewMarket(_, _, _, _) => IsoMarket(w, config, k, e, e2, c);
    case CancelOrder(_, _) => IsoCancel(w, config, k, e, e2, c);
    case ModifyOrder(_, _, _, _) => IsoModify(w, config, k, e, e2, c);
  }

  // ---- Registrations -------------------------------------------------------------------------

  ghost predicate FreshNames(names: map<string, SymbolId>, cs: seq<Command>) {
    forall i :: 0 <= i < |cs| && cs[i].RegisterSymbol? ==> cs[i].name !in names
  }

  ghost predicate NamedBelow(names: map<string, SymbolId>, r: nat) {
    forall name :: name in names ==> exists s: SymbolId :: s < r && name == SymbolName(s)
  }

  lemma {:induction false} NextNameIsNew(names: map<string, SymbolId>, r: nat)
    requires NamedBelow(names, r)
    ensures SymbolName(r) !in names && NamedBelow(names[SymbolName(r) := r], r + 1)
  {
    hide SymbolName;
    if SymbolName(r) in names {
      var s: SymbolId :| s < r && SymbolName(r) == SymbolName(s);
      SymbolNameInjective(r, s);
    }
  }

  /** A registration adds one empty book on each side, or on the original side only when nobody refers to it. */
  lemma {:induction false} IsoRegister(w: Names, k: nat, e: Engine, e2: Engine, name: string)
    requires Iso(w, k, e, e2) && name !in e.names && NamedBelow(e2.names, Rank(w.referenced, k))
    ensures var x := Register(e, name);
            var r := Rank(w.referenced, k);
            var y := if k in w.referenced then Register(e2, SymbolName(r)) else e2;
            && Iso(w, k + 1, x, y) && x.names == e.names[name := k] && NamedBelow(y.names, Rank(w.referenced, k + 1))
  {
    hide SymbolName, Rank, NamedBelow;
    var r := Rank(w.referenced, k);
    NextNameIsNew(e2.names, r);
    RankStep(w.referenced, k);
    var x := Register(e, name);
    var y := if k in w.referenced then Register(e2, SymbolName(r)) else e2;
    forall s: SymbolId | s < k + 1 ensures BookMatches(w, x, y, s) {
      if s < k {
        assert BookMatches(w, e, e2, s);
        if s in w.referenced { RankGrows(w.referenced, s, k); }
      }
    }
  }

  // ---- Whole runs ----------------------------------------------------------------------------

  /** Ids in order of first use, over the whole stream. */
  function FinalIds(cs: seq<Command>, ids: IdMap): IdMap
    decreases |cs|
  {
    if cs == [] then ids else FinalIds(cs[1..], UsedAfter(cs[0], ids))
  }

  lemma {:induction false} FinalKeeps(cs: seq<Command>, ids: IdMap, id: OrderId)
    requires id in ids
    ensures id in FinalIds(cs, ids) && FinalIds(cs, ids)[id] == ids[id]
    decreases |cs|
  {
    if cs != [] {
      FinalKeeps(cs[1..], UsedAfter(cs[0], ids), id);
    }
  }

  lemma {:induction false} FinalInjective(cs: seq<Command>, ids: IdMap)
    requires Injective(ids) && CompactIds(ids)
    ensures Injective(FinalIds(cs, ids))
    decreases |cs|
  {
    if cs != [] {
      FinalInjective(cs[1..], UsedAfter(cs[0], ids));
    }
  }

  /** The original results without those of dropped registrations, under new names. */
  function Projected(w: Names, k: nat, cs: seq<Command>, results: seq<GatewayResult>): seq<GatewayResult>
    requires |results| == |cs|
    decreases |cs|
  {
    if cs == [] then []
    else
      var rest := Projected(w, SeenAfter(cs[0], k), cs[1..], results[1..]);
      if cs[0].RegisterSymbol? && k !in w.referenced then rest else [RenResult(w, results[0])] + rest
  }

  lemma {:induction false} OneResultEach(e: Engine, config: RiskConfig, cs: seq<Command>)
    ensures |SubmitAll(e, config, cs).results| == |cs|
    decreases |cs|
  {
    hide Submit;
    if cs != [] {
      OneResultEach(Submit(e, config, cs[0]).engine, config, cs[1..]);
    }
  }

  lemma {:induction false} RunUnrolls(e: Engine, config: RiskConfig, c: Command, cs: seq<Command>)
    ensures var s := Submit(e, config, c);
            var rest := SubmitAll(s.engine, config, cs);
            SubmitAll(e, config, [c] + cs) == GatewayRun(rest.engine, [s.result] + rest.results)
  {
    hide Submit;
    assert ([c] + cs)[1..] == cs;
  }

  lemma {:induction false} ProjectedUnrolls(w: Names, k: nat, c: Command, cs: seq<Command>, r: GatewayResult,
                                            rs: seq<GatewayResult>)
    requires |rs| == |cs|
    ensures Projected(w, k, [c] + cs, [r] + rs)
            == (if c.RegisterSymbol? && k !in w.referenced then [] else [RenResult(w, r)])
               + Projected(w, SeenAfter(c, k), cs, rs)
  {
    assert ([c] + cs)[1..] == cs && ([r] + rs)[1..] == rs;
    assert [] + Projected(w, SeenAfter(c, k), cs, rs) == Projected(w, SeenAfter(c, k), cs, rs);
  }

  /** The state of the two runs with `cs` still to come. */
  ghost predicate InStep(w: Names, k: nat, ids: IdMap, cs: seq<Command>, e: Engine, e2: Engine) {
    && Iso(w, k, e, e2) && Injective(w.ids)
    && k + Registrations(cs) == w.registrations && Referenced(cs) <= w.referenced && FinalIds(cs, ids) == w.ids
    && DistinctNames(cs) && FreshNames(e.names, cs) && NamedBelow(e2.names, Rank(w.referenced, k))
  }

  /** What the two runs say about each other once they are over. */
  ghost predicate RunsMatch(w: Names, config: RiskConfig, k: nat, cs: seq<Command>, out: seq<Command>, e: Engine,
                            e2: Engine)
    requires |SubmitAll(e, config, cs).results| == |cs|
  {
    && Iso(w, w.registrations, SubmitAll(e, config, cs).engine, SubmitAll(e2, config, out).engine)
    && SubmitAll(e2, config, out).results == Projected(w, k, cs, SubmitAll(e, config, cs).results)
  }

  lemma {:induction false} HeadFacts(w: Names, k: nat, ids: IdMap, c: Command, cs: seq<Command>, e: Engine, e2: Engine)
    requires InStep(w, k, ids, [c] + cs, e, e2)
    ensures Iso(w, k, e, e2) && Injective(w.ids) && k <= w.registrations && Covered(w, c)
    ensures SeenAfter(c, k) + Registrations(cs) == w.registrations && Referenced(cs) <= w.referenced
    ensures FinalIds(cs, UsedAfter(c, ids)) == w.ids
    ensures !c.RegisterSymbol? ==> Use(ids, c.id)[c.id] == Ren(w.ids, c.id)
    ensures DistinctNames(cs) && FreshNames(e.names, cs) && NamedBelow(e2.names, Rank(w.referenced, k))
    ensures c.RegisterSymbol? ==> c.name !in e.names && FreshNames(e.names[c.name := k], cs)
  {
    hide Iso, Injective, NamedBelow, Rank;
    var all := [c] + cs;
    assert all[1..] == cs && all[0] == c;
    HeadAndTail(c, cs);
    assert forall i :: 0 <= i < |cs| ==> cs[i] == all[i + 1];
    if !c.RegisterSymbol? {
      FinalKeeps(cs, Use(ids, c.id), c.id);
    }
  }

  lemma {:induction false} NamesKept(e: Engine, config: RiskConfig, c: Command)
    requires !c.RegisterSymbol?
    ensures Submit(e, config, c).engine.names == e.names
  {
    hide Submit, Perform;
    SubmitIsSafe(e, config, c);
    PerformRoutes(e, c);
  }

  lemma {:induction false} IsoRun(w: Names, config: RiskConfig, k: nat, ids: IdMap, cs: seq<Command>, e: Engine,
                                  e2: Engine)
    requires InStep(w, k, ids, cs, e, e2)
    ensures |SubmitAll(e, config, cs).results| == |cs|
    ensures RunsMatch(w, config, k, cs, RenumberFrom(cs, w.referenced, w.registrations, k, ids), e, e2)
    decreases |cs|
  {
    hide Iso, Injective, RenumberFrom, Submit, RenResult, Rank, NamedBelow, DistinctNames, FreshNames, Referenced;
    OneResultEach(e, config, cs);
    Unrolls(cs, 0, w.referenced, w.registrations, k, ids);
    assert cs[0..] == cs;
    if cs != [] {
      assert cs == [cs[0]] + cs[1..];
      IsoRunStep(w, config, k, ids, cs[0], cs[1..], e, e2);
    }
  }

  lemma {:induction false} IsoRunStep(w: Names, config: RiskConfig, k: nat, ids: IdMap, c: Command, cs: seq<Command>,
                                      e: Engine, e2: Engine)
    requires InStep(w, k, ids, [c] + cs, e, e2)
    ensures |SubmitAll(e, config, [c] + cs).results| == |[c] + cs|
    ensures RunsMatch(w, config, k, [c] + cs,
                      Piece(c, w.referenced, w.registrations, k, ids)
                      + RenumberFrom(cs, w.referenced, w.registrations, SeenAfter(c, k), UsedAfter(c, ids)), e, e2)
    decreases |cs| + 1, 0
  {
    hide Iso, Injective, RenumberFrom, Submit, RenResult, Rank, NamedBelow, DistinctNames, FreshNames, Referenced;
    hide SubmitAll, Projected, Sym, Registrations, FinalIds, Covered, Use, Alike;
    HeadFacts(w, k, ids, c, cs, e, e2);
    var rest := RenumberFrom(cs, w.referenced, w.registrations, SeenAfter(c, k), UsedAfter(c, ids));
    var a := Submit(e, config, c);
    OneResultEach(e, config, [c] + cs);
    OneResultEach(a.engine, config, cs);
    RunUnrolls(e, config, c, cs);
    ProjectedUnrolls(w, k, c, cs, a.result, SubmitAll(a.engine, config, cs).results);
    if c.RegisterSymbol? {
      IsoRegister(w, k, e, e2, c.name);
      RegisterAccepted(w, e, config, c.name);
      if k in w.referenced {
        var d := RegisterSymbol(SymbolName(Rank(w.referenced, k)));
        var b := Submit(e2, config, d);
        RegisterAccepted(w, e2, config, d.name);
        RunUnrolls(e2, config, d, rest);
        IsoRun(w, config, k + 1, ids, cs, a.engine, b.engine);
      } else {
        assert [] + rest == rest;
        IsoRun(w, config, k + 1, ids, cs, a.engine, e2);
        assert [] + SubmitAll(e2, config, rest).results == SubmitAll(e2, config, rest).results;
      }
    } else {
      var d := RenCommand(w, c);
      var b := Submit(e2, config, d);
      IsoCommand(w, config, k, e, e2, c);
      AlikeIs(w, k, a, b);
      NamesKept(e, config, c);
      NamesKept(e2, config, d);
      RunUnrolls(e2, config, d, rest);
      PieceIs(w, k, ids, c);
      IsoRun(w, config, k, UsedAfter(c, ids), cs, a.engine, b.engine);
    }
  }

  lemma {:induction false} PieceIs(w: Names, k: nat, ids: IdMap, c: Command)
    requires !c.RegisterSymbol? && Use(ids, c.id)[c.id] == Ren(w.ids, c.id)
    ensures Piece(c, w.referenced, w.registrations, k, ids) == [RenCommand(w, c)]
  {
  }

  lemma {:induction false} AlikeIs(w: Names, k: nat, a: Submitted, b: Submitted)
    requires Alike(w, k, a, b)
    ensures Iso(w, k, a.engine, b.engine) && b.result == RenResult(w, a.result)
  {
  }

  lemma {:induction false} RegisterAccepted(w: Names, e: Engine, config: RiskConfig, name: string)
    ensures Submit(e, config, RegisterSymbol(name)) == Submitted(Register(e, name), GatewayResult(true, NoReason, []))
    ensures RenResult(w, GatewayResult(true, NoReason, [])) == GatewayResult(true, NoReason, [])
  {
  }

  ghost function NamesOf(cs: seq<Command>): Names {
    Names(Referenced(cs), Registrations(cs), FinalIds(cs, map[]))
  }

  /** The renumbered stream is the original under an injective renaming. */
  lemma {:induction false} RenumberIsIsomorphic(st: Storage, config: RiskConfig, cs: seq<Command>)
    requires DistinctNames(cs)
    ensures var w := NamesOf(cs);
            && Injective(w.ids)
            && (forall a, b :: a in w.referenced && b in w.referenced && Sym(w, a) == Sym(w, b) ==> a == b)
            && |SubmitAll(Fresh(st), config, cs).results| == |cs|
            && RunsMatch(w, config, 0, cs, Renumbered(cs), Fresh(st), Fresh(st))
  {
    hide RenumberFrom, Iso, SubmitAll, RunsMatch, Projected, DistinctNames, Rank;
    var w := NamesOf(cs);
    IsoFresh(w, st);
    FinalInjective(cs, map[]);
    NoNames(w, st, cs);
    IsoRun(w, config, 0, map[], cs, Fresh(st), Fresh(st));
    forall a, b | a in w.referenced && b in w.referenced && Sym(w, a) == Sym(w, b) ensures a == b {
      if a < b { NewSymbolInjective(w.referenced, w.registrations, a, b); }
      if b < a { NewSymbolInjective(w.referenced, w.registrations, b, a); }
    }
  }

  lemma {:induction false} NoNames(w: Names, st: Storage, cs: seq<Command>)
    ensures FreshNames(Fresh(st).names, cs) && NamedBelow(Fresh(st).names, Rank(w.referenced, 0))
  {
  }

  lemma {:induction false} EventsJoin(w: Names, a: seq<Event>, b: seq<Event>)
    ensures RenEvents(w, a + b) == RenEvents(w, a) + RenEvents(w, b)
    decreases |a|
  {
    if a == [] {
      assert [] + b == b;
    } else {
      EventsJoin(w, a[1..], b);
      assert (a + b)[1..] == a[1..] + b;
    }
  }

  lemma {:induction false} EventsUnroll(r: GatewayResult, rs: seq<GatewayResult>)
    ensures EventsOf([r] + rs) == r.events + EventsOf(rs)
  {
    assert ([r] + rs)[1..] == rs;
  }

  lemma {:induction false} ProjectedEvents(w: Names, config: RiskConfig, k: nat, cs: seq<Command>, e: Engine)
    ensures var results := SubmitAll(e, config, cs).results;
            |results| == |cs| && EventsOf(Projected(w, k, cs, results)) == RenEvents(w, EventsOf(results))
    decreases |cs|
  {
    hide Submit, RenEvents, EventsOf;
    OneResultEach(e, config, cs);
    if cs == [] {
      RenNoEvents(w);
      NoEvents();
    } else {
      var a := Submit(e, config, cs[0]);
      ProjectedEvents(w, config, SeenAfter(cs[0], k), cs[1..], a.engine);
      var rest := SubmitAll(a.engine, config, cs[1..]).results;
      EventsUnroll(a.result, rest);
      EventsJoin(w, a.result.events, EventsOf(rest));
      if cs[0].RegisterSymbol? && k !in w.referenced {
        RegisterAccepted(w, e, config, cs[0].name);
        assert [] + EventsOf(rest) == EventsOf(rest);
      } else {
        EventsUnroll(RenResult(w, a.result), Projected(w, SeenAfter(cs[0], k), cs[1..], rest));
      }
      assert ([a.result] + rest)[1..] == rest;
    }
  }

  lemma {:induction false} NoEvents()
    ensures EventsOf([]) == []
  {
  }

  /** Both runs emit the same event stream up to names: kinds, sequence numbers, prices and quantities. */
  lemma {:induction false} SameEventStream(st: Storage, config: RiskConfig, cs: seq<Command>)
    requires DistinctNames(cs)
    ensures EventsOf(SubmitAll(Fresh(st), config, Renumbered(cs)).results)
            == RenEvents(NamesOf(cs), EventsOf(SubmitAll(Fresh(st), config, cs).results))
  {
    hide SubmitAll, Renumbered, DistinctNames, Projected, EventsOf, RenEvents;
    RenumberIsIsomorphic(st, config, cs);
    ProjectedEvents(NamesOf(cs), config, 0, cs, Fresh(st));
  }
}
