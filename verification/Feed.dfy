/** Market data: the publisher's top-of-book cache, and gap detection on the receiving side. */
module Feed {
  import opened Types
  import opened BookSpec
  import opened BookTheorems
  import opened BookQueries
  import opened BookLaws
  import opened Engine
  import opened EngineClass

  datatype Top = Top(bid: Option<Price>, ask: Option<Price>)

  const NO_TOP := Top(None, None)

  datatype Message =
    | MdTrade(mdSeq: nat, symbol: SymbolId, price: Price, quantity: Quantity)
    | MdTop(mdSeq: nat, symbol: SymbolId, top: Top)

  function TopOf(e: Engine, s: SymbolId): Top {
    if s in e.books then Top(BestPrice(e.books[s].bids), BestPrice(e.books[s].asks)) else NO_TOP
  }

  /** A published top is the highest bid and the lowest ask of the symbol, and says so when a side is empty. */
  lemma {:induction false} TopIsBest(e: Engine, s: SymbolId)
    requires EngineOk(e) && s in e.books
    ensures var b, top := e.books[s], TopOf(e, s);
            && (top.bid.None? <==> b.bids == []) && (top.ask.None? <==> b.asks == [])
            && (forall i :: 0 <= i < |b.bids| ==> top.bid.Some? && b.bids[i].price <= top.bid.value)
            && (forall i :: 0 <= i < |b.asks| ==> top.ask.Some? && b.asks[i].price >= top.ask.value)
            && (top.bid.Some? ==> exists i :: 0 <= i < |b.bids| && b.bids[i].price == top.bid.value)
            && (top.ask.Some? ==> exists i :: 0 <= i < |b.asks| && b.asks[i].price == top.ask.value)
  {
    hide BookOk, Fits, BestPrice;
    BestIsBest(e.books[s]);
  }

  // ---- What a subscriber knows ---------------------------------------------------------------

  /** The last top of book received for a symbol; nothing at first. */
  function LastTop(feed: seq<Message>, s: SymbolId): Top {
    if feed == [] then NO_TOP
    else
      var m := feed[|feed| - 1];
      if m.MdTop? && m.symbol == s then m.top else LastTop(feed[..|feed| - 1], s)
  }

  ghost predicate NumberedFromOne(feed: seq<Message>) {
    forall i :: 0 <= i < |feed| ==> feed[i].mdSeq == i + 1
  }

  /** The trades a feed reports, in order. */
  function TradesOf(feed: seq<Message>): seq<(SymbolId, Price, Quantity)> {
    if feed == [] then []
    else
      var m := feed[|feed| - 1];
      TradesOf(feed[..|feed| - 1]) + (if m.MdTrade? then [(m.symbol, m.price, m.quantity)] else [])
  }

  function TradesIn(events: seq<Event>): seq<(SymbolId, Price, Quantity)> {
    if events == [] then []
    else
      var v := events[|events| - 1];
      TradesIn(events[..|events| - 1]) + (if v.Traded? then [(v.symbol, v.price, v.quantity)] else [])
  }

  // ---- What publishing sends -----------------------------------------------------------------

  /** One message per fill, in order, numbered from `last + 1`. */
  function TradeMessages(last: nat, events: seq<Event>): seq<Message> {
    if events == [] then []
    else
      var v := events[|events| - 1];
      var before := TradeMessages(last, events[..|events| - 1]);
      before + (if v.Traded? then [MdTrade(last + |before| + 1, v.symbol, v.price, v.quantity)] else [])
  }

  /** The symbols the events mention, each once, in order of first appearance. */
  function SymbolsOf(events: seq<Event>): seq<SymbolId> {
    if events == [] then []
    else
      var s := events[|events| - 1].symbol;
      var before := SymbolsOf(events[..|events| - 1]);
      if s in before then before else before + [s]
  }

  /** One message per symbol whose top is not the one last sent, in order, numbered from `last + 1`. */
  function TopMessages(last: nat, sent: seq<Message>, e: Engine, symbols: seq<SymbolId>): seq<Message> {
    if symbols == [] then []
    else
      var s := symbols[|symbols| - 1];
      var before := TopMessages(last, sent, e, symbols[..|symbols| - 1]);
      before + (if TopOf(e, s) != LastTop(sent, s) then [MdTop(last + |before| + 1, s, TopOf(e, s))] else [])
  }

  lemma {:induction false} OneMore(feed: seq<Message>, m: Message)
    ensures forall s: SymbolId ::
              LastTop(feed + [m], s) == if m.MdTop? && m.symbol == s then m.top else LastTop(feed, s)
    ensures TradesOf(feed + [m])
            == TradesOf(feed) + (if m.MdTrade? then [(m.symbol, m.price, m.quantity)] else [])
    ensures NumberedFromOne(feed) && m.mdSeq == |feed| + 1 ==> NumberedFromOne(feed + [m])
  {
    assert (feed + [m])[..|feed|] == feed;
  }

  lemma {:induction false} OneMoreEvent(last: nat, events: seq<Event>, i: nat)
    requires i < |events|
    ensures var v := events[i];
            var before := TradeMessages(last, events[..i]);
            TradeMessages(last, events[..i + 1])
            == if v.Traded? then before + [MdTrade(last + |before| + 1, v.symbol, v.price, v.quantity)] else before
    ensures var before := SymbolsOf(events[..i]);
            SymbolsOf(events[..i + 1]) == if events[i].symbol in before then before else before + [events[i].symbol]
  {
    assert events[..i + 1][..i] == events[..i];
    var before := TradeMessages(last, events[..i]);
    assert before + [] == before;
  }

  lemma {:induction false} NoEvents(last: nat, events: seq<Event>)
    ensures TradeMessages(last, events[..0]) == [] && SymbolsOf(events[..0]) == []
  {
  }

  /** Trade messages report exactly the trades, and leave every top as it was. */
  lemma {:induction false} TradesReported(sent: seq<Message>, last: nat, events: seq<Event>)
    ensures TradesOf(sent + TradeMessages(last, events)) == TradesOf(sent) + TradesIn(events)
    ensures forall s: SymbolId :: LastTop(sent + TradeMessages(last, events), s) == LastTop(sent, s)
    decreases |events|
  {
    if events == [] {
      hide LastTop, TradesOf;
      Reassociate(sent, [], []);
      Reassociate(TradesOf(sent), [], []);
    } else {
      hide LastTop, NumberedFromOne, TradesOf, TradesIn, TradeMessages;
      var n := |events| - 1;
      TradesReported(sent, last, events[..n]);
      OneMoreEvent(last, events, n);
      OneMoreTrade(events, n);
      assert events[..n + 1] == events;
      var before := TradeMessages(last, events[..n]);
      var v := events[n];
      if v.Traded? {
        var m := MdTrade(last + |before| + 1, v.symbol, v.price, v.quantity);
        OneMore(sent + before, m);
        Reassociate(sent, before, [m]);
        Reassociate(TradesOf(sent), TradesIn(events[..n]), [(v.symbol, v.price, v.quantity)]);
      }
    }
  }

  lemma {:induction false} OneMoreTrade(events: seq<Event>, i: nat)
    requires i < |events|
    ensures var v, before := events[i], TradesIn(events[..i]);
            TradesIn(events[..i + 1]) == if v.Traded? then before + [(v.symbol, v.price, v.quantity)] else before
  {
    assert events[..i + 1][..i] == events[..i];
    assert TradesIn(events[..i]) + [] == TradesIn(events[..i]);
  }

  ghost predicate Distinct(symbols: seq<SymbolId>) {
    forall i, j :: 0 <= i < j < |symbols| ==> symbols[i] != symbols[j]
  }

  lemma {:induction false} NotBefore(symbols: seq<SymbolId>, i: nat)
    requires Distinct(symbols) && i < |symbols|
    ensures symbols[i] !in symbols[..i]
  {
  }

  lemma {:induction false} SymbolsAreTouched(events: seq<Event>)
    ensures forall s: SymbolId :: s in SymbolsOf(events) <==> Touches(events, s)
    ensures Distinct(SymbolsOf(events))
    decreases |events|
  {
    hide Touches;
    if events == [] {
      NothingTouched();
    } else {
      var n := |events| - 1;
      SymbolsAreTouched(events[..n]);
      TouchesOneMore(events, n);
      assert events[..n + 1] == events;
    }
  }

  /** Top messages report no trade, and leave each listed symbol with the engine's top. */
  lemma {:induction false} TopsReported(base: seq<Message>, last: nat, sent: seq<Message>, e: Engine,
                                        symbols: seq<SymbolId>)
    requires forall s: SymbolId :: LastTop(base, s) == LastTop(sent, s)
    ensures TradesOf(base + TopMessages(last, sent, e, symbols)) == TradesOf(base)
    ensures forall s: SymbolId ::
              LastTop(base + TopMessages(last, sent, e, symbols), s)
              == if s in symbols then TopOf(e, s) else LastTop(sent, s)
    decreases |symbols|
  {
    if symbols == [] {
      hide LastTop, TopOf, TradesOf;
      Reassociate(base, [], []);
    } else {
      hide LastTop, NumberedFromOne, TopOf, TradesOf, TopMessages;
      var n := |symbols| - 1;
      var s, before := symbols[n], TopMessages(last, sent, e, symbols[..n]);
      TopsReported(base, last, sent, e, symbols[..n]);
      OneMoreTop(last, sent, e, symbols, n);
      assert symbols[..n + 1] == symbols && symbols == symbols[..n] + [s];
      if TopOf(e, s) != LastTop(sent, s) {
        var m := MdTop(last + |before| + 1, s, TopOf(e, s));
        OneMore(base + before, m);
        Reassociate(base, before, [m]);
        Reassociate(TradesOf(base), [], []);
      }
    }
  }

  /** The messages of a batch that are due: numbered on, about a listed symbol, and news to the subscriber. */
  ghost predicate TopsDue(last: nat, sent: seq<Message>, e: Engine, symbols: seq<SymbolId>, ms: seq<Message>) {
    && (forall i :: 0 <= i < |ms| ==>
          && ms[i].MdTop? && ms[i].mdSeq == last + 1 + i && ms[i].symbol in symbols
          && ms[i].top == TopOf(e, ms[i].symbol) != LastTop(sent, ms[i].symbol))
    && (forall k :: 0 <= k < |symbols| && TopOf(e, symbols[k]) != LastTop(sent, symbols[k]) ==>
          TopSent(ms, symbols[k]))
  }

  ghost predicate TopSent(ms: seq<Message>, s: SymbolId) {
    exists i :: 0 <= i < |ms| && ms[i].symbol == s
  }

  lemma {:induction false} OneMoreDue(last: nat, sent: seq<Message>, e: Engine, symbols: seq<SymbolId>,
                                      ms: seq<Message>, s: SymbolId)
    requires TopsDue(last, sent, e, symbols, ms)
    ensures var m := MdTop(last + |ms| + 1, s, TopOf(e, s));
            TopsDue(last, sent, e, symbols + [s], if TopOf(e, s) != LastTop(sent, s) then ms + [m] else ms)
  {
    hide LastTop, TopOf;
    var all := if TopOf(e, s) != LastTop(sent, s) then ms + [MdTop(last + |ms| + 1, s, TopOf(e, s))] else ms;
    var listed := symbols + [s];
    forall k | 0 <= k < |listed| && TopOf(e, listed[k]) != LastTop(sent, listed[k]) ensures TopSent(all, listed[k]) {
      if k < |symbols| {
        assert TopSent(ms, symbols[k]);
        var i :| 0 <= i < |ms| && ms[i].symbol == symbols[k];
        assert all[i].symbol == symbols[k];
      } else {
        assert all[|ms|].symbol == s;
      }
    }
  }

  lemma {:induction false} NothingDue(last: nat, sent: seq<Message>, e: Engine)
    ensures TopsDue(last, sent, e, [], TopMessages(last, sent, e, []))
  {
  }

  /** A top is sent exactly for the listed symbols whose top is not the one last sent. */
  lemma {:induction false} OnlyNewsIsSent(last: nat, sent: seq<Message>, e: Engine, symbols: seq<SymbolId>)
    ensures TopsDue(last, sent, e, symbols, TopMessages(last, sent, e, symbols))
    decreases |symbols|
  {
    hide LastTop, TopOf, TopMessages, TopsDue;
    if symbols == [] {
      NothingDue(last, sent, e);
    } else {
      var n := |symbols| - 1;
      OnlyNewsIsSent(last, sent, e, symbols[..n]);
      OneMoreTop(last, sent, e, symbols, n);
      OneMoreDue(last, sent, e, symbols[..n], TopMessages(last, sent, e, symbols[..n]), symbols[n]);
      assert symbols[..n + 1] == symbols && symbols == symbols[..n] + [symbols[n]];
    }
  }

  /** Where a touched symbol is first mentioned. */
  ghost function FirstAt(events: seq<Event>, s: SymbolId): (i: nat)
    requires Touches(events, s)
    ensures i < |events| && events[i].symbol == s && forall j :: 0 <= j < i ==> events[j].symbol != s
  {
    if events[0].symbol == s then 0
    else
      assert Touches(events[1..], s) by {
        var i :| 0 <= i < |events| && events[i].symbol == s;
        assert events[1..][i - 1].symbol == s;
      }
      1 + FirstAt(events[1..], s)
  }

  lemma {:induction false} FirstAtPrefix(events: seq<Event>, n: nat, s: SymbolId)
    requires n <= |events| && Touches(events[..n], s)
    ensures Touches(events, s) && FirstAt(events, s) == FirstAt(events[..n], s) < n
  {
    var i := FirstAt(events[..n], s);
    assert events[i].symbol == s;
  }

  /** The touched symbols come in the order in which the events first mention them. */
  lemma {:induction false} SymbolsInOrder(events: seq<Event>, i: nat, j: nat)
    requires i < j < |SymbolsOf(events)|
    ensures var symbols := SymbolsOf(events);
            && Touches(events, symbols[i]) && Touches(events, symbols[j])
            && FirstAt(events, symbols[i]) < FirstAt(events, symbols[j])
    decreases |events|
  {
    hide Touches, FirstAt;
    var n := |events| - 1;
    var s, before := events[n].symbol, SymbolsOf(events[..n]);
    SymbolsAreTouched(events);
    SymbolsAreTouched(events[..n]);
    FirstAtPrefix(events, n, before[i]);
    if j < |before| {
      SymbolsInOrder(events[..n], i, j);
      FirstAtPrefix(events, n, before[j]);
    } else {
      NewIsLast(events, n);
    }
  }

  lemma {:induction false} NewIsLast(events: seq<Event>, n: nat)
    requires n + 1 == |events| && !Touches(events[..n], events[n].symbol)
    ensures Touches(events, events[n].symbol) && FirstAt(events, events[n].symbol) == n
  {
    assert events[n].symbol == events[n].symbol;
    var i := FirstAt(events, events[n].symbol);
  }

  lemma {:induction false} NothingTouched()
    ensures forall s: SymbolId :: !Touches([], s)
  {
  }

  lemma {:induction false} OneMoreTop(last: nat, sent: seq<Message>, e: Engine, symbols: seq<SymbolId>, i: nat)
    requires i < |symbols|
    ensures var before := TopMessages(last, sent, e, symbols[..i]);
            var s := symbols[i];
            TopMessages(last, sent, e, symbols[..i + 1])
            == if TopOf(e, s) != LastTop(sent, s) then before + [MdTop(last + |before| + 1, s, TopOf(e, s))] else before
  {
    hide TopOf, LastTop;
    assert symbols[..i + 1][..i] == symbols[..i];
    var before := TopMessages(last, sent, e, symbols[..i]);
    assert before + [] == before;
  }

  ghost predicate Touches(events: seq<Event>, s: SymbolId) {
    exists i :: 0 <= i < |events| && events[i].symbol == s
  }

  /** A book whose symbol no event mentions has not changed its top. */
  lemma {:induction false} UntouchedTop(e: Engine, c: Command, s: SymbolId)
    requires EngineOk(e) && !Touches(Perform(e, c).events, s)
    ensures TopOf(Perform(e, c).engine, s) == TopOf(e, s)
  {
    hide BookOk, Fits, Perform;
    if c.RegisterSymbol? {
      PerformIs(e, c);
    } else {
      PerformRoutes(e, c);
      if s == c.symbol {
        SilentOrTouching(e, c);
      }
    }
  }

  /** An order command either reports its symbol first or does nothing at all. */
  lemma {:induction false} SilentOrTouching(e: Engine, c: Command)
    requires !c.RegisterSymbol?
    ensures var p := Perform(e, c);
            if p.events == [] then p.engine == e else p.events[0].symbol == c.symbol && Touches(p.events, c.symbol)
  {
    hide Contains, CanStoreLimit, CanApplyModify, AddLimit, AddMarket, Modify, Cancel, TradeEvents;
    var p := Perform(e, c);
    if p.events != [] {
      assert p.events[0].symbol == c.symbol;
    }
  }

  // ---- The publisher -------------------------------------------------------------------------

  class MarketDataPublisher {
    var lastTop: map<SymbolId, Top>
    var mdSeq: nat
    var feed: seq<Message>  // everything sent to the subscribers so far

    /** Consecutive numbers, and a cache that is what every subscriber last heard. */
    ghost predicate Valid()
      reads this
    {
      && NumberedFromOne(feed) && mdSeq == |feed|
      && forall s: SymbolId :: LastTop(feed, s) == if s in lastTop then lastTop[s] else NO_TOP
    }

    constructor ()
      ensures Valid() && feed == []
    {
      lastTop, mdSeq, feed := map[], 0, [];
    }

    method Emit(m: Message)
      requires Valid() && m.mdSeq == mdSeq + 1
      modifies this`mdSeq, this`feed
      ensures feed == old(feed) + [m] && mdSeq == |feed| && NumberedFromOne(feed)
      ensures forall s: SymbolId ::
                LastTop(feed, s) == if m.MdTop? && m.symbol == s then m.top else old(LastTop(feed, s))
      ensures TradesOf(feed) == old(TradesOf(feed)) + (if m.MdTrade? then [(m.symbol, m.price, m.quantity)] else [])
    {
      OneMore(feed, m);
      mdSeq := mdSeq + 1;
      feed := feed + [m];
    }

    /** One message per fill; collect the symbols in order of first appearance. */
    method PublishTrades(events: seq<Event>) returns (touched: seq<SymbolId>)
      requires Valid()
      modifies this`mdSeq, this`feed
      ensures Valid() && feed == old(feed) + TradeMessages(old(mdSeq), events) && touched == SymbolsOf(events)
    {
      hide LastTop, NumberedFromOne, TradesOf, TradeMessages, SymbolsOf;
      touched := [];
      ghost var last, sent, added := mdSeq, feed, [];
      var i := 0;
      NoEvents(last, events);
      Reassociate(sent, [], []);
      while i < |events|
        invariant 0 <= i <= |events| && Valid() && lastTop == old(lastTop)
        invariant feed == sent + added && added == TradeMessages(last, events[..i]) && touched == SymbolsOf(events[..i])
      {
        var v := events[i];
        OneMoreEvent(last, events, i);
        if v.Traded? {
          var m := MdTrade(mdSeq + 1, v.symbol, v.price, v.quantity);
          Reassociate(sent, added, [m]);
          Emit(m);
          added := added + [m];
        }
        if v.symbol !in touched {
          touched := touched + [v.symbol];
        }
        i := i + 1;
      }
      assert events[..i] == events;
    }

    /** Send a symbol's top unless it is the one last sent. */
    method PublishTop(s: SymbolId, current: Top)
      requires Valid()
      modifies this
      ensures Valid()
      ensures feed == if current != old(LastTop(feed, s)) then old(feed) + [MdTop(old(mdSeq) + 1, s, current)]
                      else old(feed)
    {
      hide LastTop, NumberedFromOne, TradesOf;
      if s !in lastTop {
        if current != NO_TOP {
          Emit(MdTop(mdSeq + 1, s, current));
        }
        lastTop := lastTop[s := current];
      } else if lastTop[s] != current {
        Emit(MdTop(mdSeq + 1, s, current));
        lastTop := lastTop[s := current];
      }
    }

    /** Top-of-book messages for the touched symbols, against what had been sent before this batch. */
    method PublishTops(engine: MatchingEngine, touched: seq<SymbolId>, ghost sent: seq<Message>)
      requires Valid() && engine.Valid() && this !in engine.Repr && Distinct(touched)
      requires forall s: SymbolId :: LastTop(feed, s) == LastTop(sent, s)
      modifies this
      ensures Valid() && engine.Valid()
      ensures feed == old(feed) + TopMessages(old(mdSeq), sent, engine.State(), touched)
    {
      hide LastTop, NumberedFromOne, TopMessages, TopOf, Distinct, TopsSoFar;
      hide MatchingEngine.Valid, MatchingEngine.Books;
      ghost var e, base := engine.State(), feed;
      var i := 0;
      NoTops(base, sent, e, touched);
      while i < |touched|
        invariant 0 <= i <= |touched| && Valid() && engine.Valid() && engine.State() == e
        invariant TopsSoFar(base, sent, e, touched, i, feed)
      {
        var s := touched[i];
        var current := TopNow(engine, s);
        NextTop(base, sent, e, touched, i, feed);
        PublishTop(s, current);
        i := i + 1;
      }
      AllTops(base, sent, e, touched, feed);
    }

    /** `publish`: trades first, then one top-of-book message per touched symbol whose top changed. */
    method Publish(engine: MatchingEngine, events: seq<Event>)
      requires Valid() && engine.Valid() && this !in engine.Repr
      modifies this
      ensures Valid() && engine.Valid()
      ensures var trades := TradeMessages(old(mdSeq), events);
              feed == old(feed) + trades
                      + TopMessages(old(mdSeq) + |trades|, old(feed), engine.State(), SymbolsOf(events))
      ensures forall s: SymbolId ::
                LastTop(feed, s) == if Touches(events, s) then TopOf(engine.State(), s) else old(LastTop(feed, s))
      ensures TradesOf(feed) == old(TradesOf(feed)) + TradesIn(events)
    {
      hide LastTop, NumberedFromOne, TradesOf, TradesIn, TradeMessages;
      hide TopMessages, SymbolsOf, Touches, TopOf, Distinct;
      hide MatchingEngine.Valid, MatchingEngine.Books;
      ghost var sent := feed;
      TradesReported(sent, mdSeq, events);
      SymbolsAreTouched(events);
      var touched := PublishTrades(events);
      TopsReported(feed, |feed|, sent, engine.State(), touched);
      PublishTops(engine, touched, sent);
    }
  }

  /** `best_bid` and `best_ask` of one symbol. */
  method TopNow(engine: MatchingEngine, s: SymbolId) returns (top: Top)
    requires engine.Valid()
    ensures engine.Valid() && top == TopOf(engine.State(), s)
  {
    hide MatchingEngine.Valid, MatchingEngine.Books, BestPrice;
    var bid := engine.BestPriceOf(s, Buy);
    var ask := engine.BestPriceOf(s, Sell);
    top := Top(bid, ask);
  }

  /** `now` is `base` and what the first `i` symbols have sent. */
  ghost predicate TopsSoFar(base: seq<Message>, sent: seq<Message>, e: Engine, symbols: seq<SymbolId>, i: nat,
                            now: seq<Message>)
  {
    i <= |symbols| && now == base + TopMessages(|base|, sent, e, symbols[..i])
  }

  lemma {:induction false} NoTops(base: seq<Message>, sent: seq<Message>, e: Engine, symbols: seq<SymbolId>)
    ensures TopsSoFar(base, sent, e, symbols, 0, base)
  {
  }

  lemma {:induction false} AllTops(base: seq<Message>, sent: seq<Message>, e: Engine, symbols: seq<SymbolId>,
                                   now: seq<Message>)
    requires TopsSoFar(base, sent, e, symbols, |symbols|, now)
    ensures now == base + TopMessages(|base|, sent, e, symbols)
  {
    assert symbols[..|symbols|] == symbols;
  }

  /** The next symbol's last top is still the one sent before the batch, and what it sends comes next. */
  lemma {:induction false} NextTop(base: seq<Message>, sent: seq<Message>, e: Engine, symbols: seq<SymbolId>, i: nat,
                                   now: seq<Message>)
    requires i < |symbols| && Distinct(symbols) && TopsSoFar(base, sent, e, symbols, i, now)
    requires forall s: SymbolId :: LastTop(base, s) == LastTop(sent, s)
    ensures var s := symbols[i];
            && LastTop(now, s) == LastTop(sent, s)
            && TopsSoFar(base, sent, e, symbols, i + 1,
                         if TopOf(e, s) != LastTop(sent, s) then now + [MdTop(|now| + 1, s, TopOf(e, s))] else now)
  {
    hide LastTop, TopMessages, TopOf, Distinct;
    var s, added := symbols[i], TopMessages(|base|, sent, e, symbols[..i]);
    TopsReported(base, |base|, sent, e, symbols[..i]);
    NotBefore(symbols, i);
    OneMoreTop(|base|, sent, e, symbols, i);
    Reassociate(base, added, [MdTop(|now| + 1, s, TopOf(e, s))]);
  }

  lemma {:induction false} TouchesOneMore(events: seq<Event>, i: nat)
    requires i < |events|
    ensures forall s: SymbolId :: Touches(events[..i + 1], s) <==> Touches(events[..i], s) || events[i].symbol == s
  {
    var n := events[..i + 1];
    forall s: SymbolId ensures Touches(n, s) <==> Touches(events[..i], s) || events[i].symbol == s {
      if Touches(events[..i], s) {
        var k :| 0 <= k < i && events[..i][k].symbol == s;
        assert n[k].symbol == s;
      }
      if events[i].symbol == s { assert n[i].symbol == s; }
      if Touches(n, s) {
        var k :| 0 <= k <= i && n[k].symbol == s;
        if k < i { assert events[..i][k].symbol == s; }
      }
    }
  }

  /**
   * Apply any command stream to an engine and publish each command's events: at the end, and hence
   * after every prefix, every subscriber's last top of book is the engine's, for every symbol.
   */
  method RunAndPublish(engine: MatchingEngine, publisher: MarketDataPublisher, cs: seq<Command>)
    requires publisher.Valid() && engine.Valid() && publisher !in engine.Repr && EngineOk(engine.State())
    requires forall s: SymbolId :: LastTop(publisher.feed, s) == TopOf(engine.State(), s)
    modifies engine, engine.Repr, publisher
    ensures publisher.Valid() && engine.Valid() && EngineOk(engine.State())
    ensures engine.State() == PerformAll(old(engine.State()), cs).engine
    ensures forall s: SymbolId :: LastTop(publisher.feed, s) == TopOf(engine.State(), s)
    ensures TradesOf(publisher.feed)
            == old(TradesOf(publisher.feed)) + TradesIn(PerformAll(old(engine.State()), cs).events)
    ensures NumberedFromOne(publisher.feed)
  {
    hide LastTop, NumberedFromOne, TopOf, EngineOk, Perform, PerformAll, TradesOf, TradesIn;
    hide TradeMessages, TopMessages, SymbolsOf, MatchingEngine.Valid, MatchingEngine.Books;
    var i := 0;
    ghost var start, told := engine.State(), TradesOf(publisher.feed);
    StartsHere(start);
    assert cs[..0] == [] && told + [] == told;
    while i < |cs|
      invariant publisher.Valid() && engine.Valid() && publisher !in engine.Repr
                && fresh(engine.Repr - old(engine.Repr))
      invariant 0 <= i <= |cs| && EngineOk(engine.State())
      invariant engine.State() == PerformAll(start, cs[..i]).engine
      invariant forall s: SymbolId :: LastTop(publisher.feed, s) == TopOf(engine.State(), s)
      invariant TradesOf(publisher.feed) == told + TradesIn(PerformAll(start, cs[..i]).events)
    {
      ghost var e := engine.State();
      PerformAllLast(start, cs, i);
      PerformKeepsEngine(e, cs[i]);
      var events := engine.Apply(cs[i]);
      forall s: SymbolId | !Touches(events, s) ensures TopOf(engine.State(), s) == TopOf(e, s) {
        UntouchedTop(e, cs[i], s);
      }
      TradesJoin(PerformAll(start, cs[..i]).events, events);
      Reassociate(told, TradesIn(PerformAll(start, cs[..i]).events), TradesIn(events));
      publisher.Publish(engine, events);
      i := i + 1;
    }
    assert cs[..i] == cs;
  }

  lemma {:induction false} TradesJoin(a: seq<Event>, b: seq<Event>)
    ensures TradesIn(a + b) == TradesIn(a) + TradesIn(b)
    decreases |b|
  {
    if b == [] {
      assert a + b == a && TradesIn(a) + [] == TradesIn(a);
    } else {
      var n := |b| - 1;
      TradesJoin(a, b[..n]);
      assert (a + b)[..|a + b| - 1] == a + b[..n] && (a + b)[|a + b| - 1] == b[n];
      var row := if b[n].Traded? then [(b[n].symbol, b[n].price, b[n].quantity)] else [];
      Reassociate(TradesIn(a), TradesIn(b[..n]), row);
    }
  }

  lemma {:induction false} StartsHere(e: Engine)
    ensures PerformAll(e, []) == Step(e, []) && TradesIn([]) == []
  {
  }

  // ---- Gap detection -------------------------------------------------------------------------

  class SequenceTracker {
    var started: bool
    var last: nat

    constructor ()
      ensures !started
    {
      started, last := false, 0;
    }

    /** How many messages were missed immediately before this one; repeats and late arrivals report none. */
    method Observe(seqNo: nat) returns (missed: nat)
      modifies this
      ensures started
      ensures last == if !old(started) then seqNo else if seqNo > old(last) then seqNo else old(last)
      ensures missed == if old(started) && seqNo > old(last) then seqNo - old(last) - 1 else 0
    {
      if !started {
        started, last := true, seqNo;
        return 0;
      }
      if seqNo <= last {
        return 0;
      }
      missed := seqNo - last - 1;
      last := seqNo;
    }
  }

  /** The numbers strictly between the first and the last received that never arrived. */
  function Missing(first: nat, last: nat, received: seq<nat>): set<nat> {
    set x | first < x < last && x !in received
  }

  ghost predicate Increasing(received: seq<nat>) {
    forall i, j :: 0 <= i < j < |received| ==> received[i] < received[j]
  }

  function Between(a: nat, b: nat): (r: set<nat>)
    ensures forall x :: x in r <==> a < x < b
    ensures |r| == if a < b then b - a - 1 else 0
    decreases b
  {
    if b <= a + 1 then {} else Between(a, b - 1) + {b - 1}
  }

  lemma {:induction false} MissingSplits(first: nat, p: nat, q: nat, r: seq<nat>)
    requires first <= p < q && p in r && forall x :: x in r ==> x <= p
    ensures Missing(first, q, r + [q]) == Missing(first, p, r) + Between(p, q)
  {
  }

  lemma {:induction false} MissingGrows(received: seq<nat>, i: nat)
    requires Increasing(received) && 0 < i < |received|
    ensures var first := received[0];
            |Missing(first, received[i], received[..i + 1])|
            == |Missing(first, received[i - 1], received[..i])| + (received[i] - received[i - 1] - 1)
  {
    hide Missing;
    var first, p, q, r := received[0], received[i - 1], received[i], received[..i];
    assert received[..i + 1] == r + [q];
    assert r[i - 1] == p;
    forall x | x in r ensures x <= p {
      var k :| 0 <= k < i && r[k] == x;
      assert received[k] == x;
    }
    MissingSplits(first, p, q, r);
    MissingBelow(first, p, r);
    assert Missing(first, p, r) !! Between(p, q);
  }

  lemma {:induction false} MissingBelow(first: nat, p: nat, r: seq<nat>)
    ensures forall x :: x in Missing(first, p, r) ==> x < p
  {
  }

  /** On any in-order lossy subsequence, the reported gaps add up to the messages lost. */
  method TrackAll(received: seq<nat>) returns (total: nat)
    requires Increasing(received)
    ensures received != [] ==> total == |Missing(received[0], received[|received| - 1], received)|
  {
    hide Missing;
    var tracker := new SequenceTracker();
    total := 0;
    var i := 0;
    while i < |received|
      invariant 0 <= i <= |received| && tracker.started == (i > 0) && fresh(tracker)
      invariant i > 0 ==> tracker.last == received[i - 1]
                          && total == |Missing(received[0], received[i - 1], received[..i])|
      invariant i == 0 ==> total == 0
    {
      if i > 0 {
        MissingGrows(received, i);
      } else {
        NothingMissing(received[0], received[..1]);
      }
      var missed := tracker.Observe(received[i]);
      total := total + missed;
      i := i + 1;
    }
    assert received[..i] == received;
  }

  lemma {:induction false} NothingMissing(a: nat, received: seq<nat>)
    ensures |Missing(a, a, received)| == 0
  {
    assert Missing(a, a, received) == {};
  }
}
