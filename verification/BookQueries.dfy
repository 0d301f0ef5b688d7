/** How the aggregate queries of a book split over the price levels of a side. */
module BookQueries {
  import opened Types
  import opened BookSpec

  lemma {:induction false} QuantityAtConcat(a: seq<Order>, b: seq<Order>, price: Price)
    ensures QuantityAt(a + b, price) == QuantityAt(a, price) + QuantityAt(b, price)
    decreases |a|
  {
    if a == [] {
      assert a + b == b;
    } else {
      assert (a + b)[0] == a[0] && (a + b)[1..] == a[1..] + b;
      QuantityAtConcat(a[1..], b, price);
    }
  }

  lemma {:induction false} QuantityAtUniform(q: seq<Order>, price: Price, all: bool)
    requires forall i :: 0 <= i < |q| ==> (q[i].price == price) == all
    ensures QuantityAt(q, price) == if all then TotalQuantity(q) else 0
    decreases |q|
  {
    if q != [] { QuantityAtUniform(q[1..], price, all); }
  }

  /** One occupied level is one entry of the aggregate view. */
  lemma {:induction false} LevelsOfRun(run: seq<Order>, rest: seq<Order>, price: Price)
    requires run != [] && forall i :: 0 <= i < |run| ==> run[i].price == price
    requires rest != [] ==> rest[0].price != price
    ensures Levels(run + rest) == [LevelView(price, TotalQuantity(run))] + Levels(rest)
    decreases |run|
  {
    assert (run + rest)[0] == run[0] && (run + rest)[1..] == run[1..] + rest;
    if |run| == 1 {
      assert run[1..] + rest == rest;
      LevelsFront(rest);
    } else {
      LevelsOfRun(run[1..], rest, price);
      assert ([LevelView(price, TotalQuantity(run[1..]))] + Levels(rest))[1..] == Levels(rest);
    }
  }

  lemma {:induction false} LevelsFront(q: seq<Order>)
    ensures Levels(q) == [] <==> q == []
    ensures q != [] ==> Levels(q)[0].price == q[0].price
  {
  }

  /** Summing entry by entry. */
  lemma {:induction false} TotalFrom(q: seq<Order>, i: nat)
    requires i <= |q|
    ensures i < |q| ==> TotalQuantity(q[i..]) == q[i].quantity + TotalQuantity(q[i + 1..])
    ensures i == |q| ==> TotalQuantity(q[i..]) == 0
  {
    if i < |q| {
      assert q[i..][1..] == q[i + 1..];
    }
  }

  lemma {:induction false} Reassociate<T>(a: seq<T>, b: seq<T>, c: seq<T>)
    ensures a + (b + c) == a + b + c && a + [] == a && [] + a == a
  {
  }
}
