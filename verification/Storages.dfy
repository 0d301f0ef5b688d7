/** A book on any storage side by side with one on the baseline. */
module Storages {
  import opened Types
  import opened BookSpec
  import opened BookTheorems
  import opened BookQueries
  import opened BookClass

  /** What the queries of a book answer, asking the quantity at one side and price. */
  datatype Answers = Answers(
    bestBid: Option<Price>, bestAsk: Option<Price>,
    bids: seq<LevelView>, asks: seq<LevelView>,
    resting: seq<Order>, count: nat, at: nat)

  function AnswersOf(b: Book, side: Side, price: Price): Answers {
    Answers(BestPrice(b.bids), BestPrice(b.asks), Levels(b.bids), Levels(b.asks),
            RestingOrders(b), OrderCount(b), QuantityAt(SideOf(b, side), price))
  }

  /** The answers after each command of a baseline run. */
  function Watched(b: Book, cs: seq<BookCommand>, side: Side, price: Price): seq<Answers>
    decreases |cs|
  {
    if cs == [] then []
    else
      var n := Apply(Baseline, b, cs[0]).book;
      [AnswersOf(n, side, price)] + Watched(n, cs[1..], side, price)
  }

  lemma {:induction false} WatchUnrolls(b: Book, cs: seq<BookCommand>, side: Side, price: Price, i: nat)
    requires i <= |cs|
    ensures i == |cs| ==> Watched(b, cs[i..], side, price) == []
    ensures i < |cs| ==>
              var n := Apply(Baseline, b, cs[i]).book;
              Watched(b, cs[i..], side, price) == [AnswersOf(n, side, price)] + Watched(n, cs[i + 1..], side, price)
  {
    hide Apply, AnswersOf;
    if i < |cs| {
      assert cs[i..][0] == cs[i] && cs[i..][1..] == cs[i + 1..];
    }
  }

  method Ask(book: OrderBook, side: Side, price: Price) returns (a: Answers)
    requires book.Valid()
    ensures book.Valid() && a == AnswersOf(book.Book(), side, price)
  {
    hide OrderBook.Valid, OrderBook.Book, Levels, BestPrice, QuantityAt, RestingOrders;
    var bestBid := book.BestPriceOf(Buy);
    var bestAsk := book.BestPriceOf(Sell);
    var bids := book.LevelViews(Buy);
    var asks := book.LevelViews(Sell);
    var resting := book.RestingOrders();
    var count := book.Count();
    var at := book.QuantityAtPrice(side, price);
    a := Answers(bestBid, bestAsk, bids, asks, resting, count, at);
  }

  /**
   * Until something is refused, a book on any storage trades as the baseline does on every command,
   * and after every command each query of the one answers as the same query of the other.
   */
  method AgainstBaseline(x: OrderBook, b: OrderBook, cs: seq<BookCommand>, side: Side, price: Price)
    returns (fast: seq<seq<Trade>>, slow: seq<seq<Trade>>, fastSeen: seq<Answers>, slowSeen: seq<Answers>)
    requires x.Valid() && b.Valid() && x.Repr !! b.Repr && b.Mode().Baseline? && x.Book() == b.Book()
    requires BookOk(b.Book()) && Fits(x.Mode(), b.Book()) && NeverRefuses(x.Mode(), b.Book(), cs)
    modifies x.Repr, b.Repr
    ensures x.Valid() && b.Valid() && x.Book() == b.Book()
    ensures fast == slow && fastSeen == slowSeen && slowSeen == Watched(old(b.Book()), cs, side, price)
    ensures (b.Book(), slow) == Run(Baseline, old(b.Book()), cs)
  {
    hide BookOk, Fits, Apply, Run, Refuses, OrderBook.Valid, OrderBook.Book, OrderBook.Mode;
    hide AnswersOf, Watched;
    fast, slow, fastSeen, slowSeen := [], [], [], [];
    var i := 0;
    assert cs[0..] == cs;
    ghost var start := b.Book();
    assert [] + Run(Baseline, start, cs).1 == Run(Baseline, start, cs).1;
    Reassociate(slowSeen, [], Watched(start, cs, side, price));
    while i < |cs|
      invariant 0 <= i <= |cs| && x.Valid() && b.Valid() && x.Book() == b.Book()
      invariant fast == slow && fastSeen == slowSeen
      invariant Watched(start, cs, side, price) == slowSeen + Watched(b.Book(), cs[i..], side, price)
      invariant BookOk(b.Book()) && Fits(x.Mode(), b.Book()) && NeverRefuses(x.Mode(), b.Book(), cs[i..])
      invariant var rest := Run(Baseline, b.Book(), cs[i..]); Run(Baseline, start, cs) == (rest.0, slow + rest.1)
    {
      ghost var book := b.Book();
      NotRefusedHere(x.Mode(), book, cs, i);
      StepAgreesWithBaseline(x.Mode(), book, cs[i]);
      StepKeepsBook(x.Mode(), book, cs[i]);
      RunUnrolls(Baseline, book, cs, i);
      WatchUnrolls(book, cs, side, price, i);
      var t := x.Apply(cs[i]);
      var u := b.Apply(cs[i]);
      ghost var rest := Run(Baseline, b.Book(), cs[i + 1..]).1;
      assert slow + ([u] + rest) == slow + [u] + rest;
      fast, slow := fast + [t], slow + [u];
      var p := Ask(x, side, price);
      var q := Ask(b, side, price);
      Reassociate(slowSeen, [q], Watched(b.Book(), cs[i + 1..], side, price));
      fastSeen, slowSeen := fastSeen + [p], slowSeen + [q];
      i := i + 1;
    }
    RunUnrolls(Baseline, b.Book(), cs, i);
    WatchUnrolls(b.Book(), cs, side, price, i);
    assert slow + [] == slow && slowSeen + [] == slowSeen;
  }

  lemma {:induction false} NotRefusedHere(st: Storage, b: Book, cs: seq<BookCommand>, i: nat)
    requires i < |cs| && NeverRefuses(st, b, cs[i..])
    ensures !Refuses(st, b, cs[i]) && NeverRefuses(st, Apply(st, b, cs[i]).book, cs[i + 1..])
  {
    hide Refuses, Apply;
    assert cs[i..][0] == cs[i] && cs[i..][1..] == cs[i + 1..];
  }

  /** From two new books: any command stream the storage never refuses cannot tell it from the baseline. */
  method FromEmpty(st: Storage, cs: seq<BookCommand>, side: Side, price: Price)
    returns (fast: seq<seq<Trade>>, slow: seq<seq<Trade>>, fastSeen: seq<Answers>, slowSeen: seq<Answers>)
    requires Constructible(st) && NeverRefuses(st, EMPTY_BOOK, cs)
    ensures fast == slow && slow == Run(Baseline, EMPTY_BOOK, cs).1
    ensures fastSeen == slowSeen && slowSeen == Watched(EMPTY_BOOK, cs, side, price)
  {
    hide BookOk, Fits, Run, Watched, NeverRefuses, OrderBook.Valid, OrderBook.Book;
    EmptyFits(st);
    var x := new OrderBook(st);
    var b := new OrderBook(Baseline);
    fast, slow, fastSeen, slowSeen := AgainstBaseline(x, b, cs, side, price);
  }
}
