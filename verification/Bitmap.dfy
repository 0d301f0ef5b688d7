/** Occupancy bitmaps over 64-bit words, and the nearest-occupied-slot search. */
module Bitmap {
  import opened Types

  const WORD_BITS := 64

  /** A `uint64_t` as its bits, least significant first. */
  type Word = w: seq<bool> | |w| == WORD_BITS witness seq(WORD_BITS, _ => false)

  const ZERO: Word := seq(WORD_BITS, _ => false)
  const ONE: Word := seq(WORD_BITS, i => i == 0)
  const ONES: Word := seq(WORD_BITS, _ => true)

  function Or(a: Word, b: Word): Word {
    seq(WORD_BITS, i requires 0 <= i < WORD_BITS => a[i] || b[i])
  }

  function And(a: Word, b: Word): Word {
    seq(WORD_BITS, i requires 0 <= i < WORD_BITS => a[i] && b[i])
  }

  function Not(a: Word): Word {
    seq(WORD_BITS, i requires 0 <= i < WORD_BITS => !a[i])
  }

  /** `a << k`. */
  function Shl(a: Word, k: nat): Word {
    seq(WORD_BITS, i requires 0 <= i < WORD_BITS => k <= i && a[i - k])
  }

  /** `a - 1` modulo 2^64: the borrow reaches bit `i` exactly when every lower bit is clear. */
  function Decrement(a: Word): Word {
    seq(WORD_BITS, i requires 0 <= i < WORD_BITS => a[i] != (forall j :: 0 <= j < i ==> !a[j]))
  }

  /** `(uint64_t{1} << (k + 1)) - 1` keeps exactly the bits at or below `k`. */
  lemma LowMaskIs(k: nat, i: nat)
    requires k + 1 < WORD_BITS && i < WORD_BITS
    ensures Decrement(Shl(ONE, k + 1))[i] <==> i <= k
  {
    if i > k + 1 {
      assert Shl(ONE, k + 1)[k + 1];
    }
  }

  /** `std::countr_zero` on a nonzero word: the index of its lowest set bit. */
  method CountTrailingZeros(w: Word) returns (n: nat)
    requires w != ZERO
    ensures n < WORD_BITS && w[n] && forall j :: 0 <= j < n ==> !w[j]
  {
    n := 0;
    while n < WORD_BITS && !w[n]
      invariant n <= WORD_BITS
      invariant forall j :: 0 <= j < n ==> !w[j]
    {
      n := n + 1;
    }
    assert n == WORD_BITS ==> w == ZERO;
  }

  /** `63 - std::countl_zero` on a nonzero word: the index of its highest set bit. */
  method HighestBit(w: Word) returns (n: nat)
    requires w != ZERO
    ensures n < WORD_BITS && w[n] && forall j :: 0 <= j && n < j < WORD_BITS ==> !w[j]
  {
    var k: nat := WORD_BITS;
    while k > 0 && !w[k - 1]
      invariant k <= WORD_BITS
      invariant forall j :: 0 <= j && k <= j < WORD_BITS ==> !w[j]
    {
      k := k - 1;
    }
    assert k == 0 ==> w == ZERO;
    n := k - 1;
  }

  class Occupancy {
    const words: array<Word>

    ghost predicate Occupied(slot: int)
      reads words
    {
      0 <= slot < WORD_BITS * words.Length && words[slot / WORD_BITS][slot % WORD_BITS]
    }

    /** The occupied slots. */
    ghost function Slots(): (s: set<int>)
      reads words
      ensures forall slot :: slot in s <==> Occupied(slot)
    {
      set slot | 0 <= slot < WORD_BITS * words.Length && Occupied(slot)
    }

    constructor (wordCount: nat)
      ensures fresh(words) && words.Length == wordCount && Slots() == {}
    {
      words := new Word[wordCount](_ => ZERO);
    }

    method SetBit(slot: nat)
      requires slot < WORD_BITS * words.Length
      modifies words
      ensures Slots() == old(Slots()) + {slot}
    {
      words[slot / WORD_BITS] := Or(words[slot / WORD_BITS], Shl(ONE, slot % WORD_BITS));
      forall s ensures Occupied(s) <==> old(Occupied(s)) || s == slot {}
    }

    method ClearBit(slot: nat)
      requires slot < WORD_BITS * words.Length
      modifies words
      ensures Slots() == old(Slots()) - {slot}
    {
      words[slot / WORD_BITS] := And(words[slot / WORD_BITS], Not(Shl(ONE, slot % WORD_BITS)));
      forall s ensures Occupied(s) <==> old(Occupied(s)) && s != slot {}
    }

    /** The lowest occupied slot at or above `from`. */
    method NextUp(from: nat) returns (r: Option<nat>)
      ensures r.None? ==> forall s :: s in Slots() ==> s < from
      ensures r.Some? ==> r.value in Slots() && from <= r.value
      ensures r.Some? ==> forall s :: s in Slots() && from <= s ==> r.value <= s
    {
      var word := from / WORD_BITS;
      while word < words.Length
        invariant from / WORD_BITS <= word
        invariant forall s :: s in Slots() && from <= s ==> word * WORD_BITS <= s
      {
        var value := words[word];
        if word == from / WORD_BITS {
          value := And(value, Shl(ONES, from % WORD_BITS));
        }
        ghost var kept := if word == from / WORD_BITS then from % WORD_BITS else 0;
        assert forall j :: 0 <= j < WORD_BITS ==> (value[j] <==> kept <= j && words[word][j]);
        if value != ZERO {
          var n := CountTrailingZeros(value);
          assert Occupied(word * WORD_BITS + n);
          forall s | s in Slots() && from <= s ensures word * WORD_BITS + n <= s {
            assert s / WORD_BITS == word ==> value[s % WORD_BITS];
          }
          return Some(word * WORD_BITS + n);
        }
        assert forall j :: kept <= j < WORD_BITS ==> !words[word][j] by {
          assert forall j :: 0 <= j < WORD_BITS ==> !value[j];
        }
        forall s | s in Slots() && from <= s ensures (word + 1) * WORD_BITS <= s {
          assert Occupied(s);
        }
        word := word + 1;
      }
      return None;
    }

    /** The highest occupied slot at or below `from`. */
    method NextDown(from: nat) returns (r: Option<nat>)
      requires from < WORD_BITS * words.Length
      ensures r.None? ==> forall s :: s in Slots() ==> from < s
      ensures r.Some? ==> r.value in Slots() && r.value <= from
      ensures r.Some? ==> forall s :: s in Slots() && s <= from ==> s <= r.value
    {
      var next := from / WORD_BITS + 1;
      while next > 0
        invariant next <= from / WORD_BITS + 1
        invariant forall s :: s in Slots() && s <= from ==> s < next * WORD_BITS
      {
        var word := next - 1;
        var value := words[word];
        if word == from / WORD_BITS && from % WORD_BITS != WORD_BITS - 1 {
          value := And(value, Decrement(Shl(ONE, from % WORD_BITS + 1)));
          forall j | 0 <= j < WORD_BITS ensures value[j] <==> j <= from % WORD_BITS && words[word][j] {
            LowMaskIs(from % WORD_BITS, j);
          }
        }
        ghost var kept := if word == from / WORD_BITS then from % WORD_BITS else WORD_BITS - 1;
        assert forall j :: 0 <= j < WORD_BITS ==> (value[j] <==> j <= kept && words[word][j]);
        if value != ZERO {
          var n := HighestBit(value);
          assert Occupied(word * WORD_BITS + n);
          forall s | s in Slots() && s <= from ensures s <= word * WORD_BITS + n {
            assert s / WORD_BITS == word ==> value[s % WORD_BITS];
          }
          return Some(word * WORD_BITS + n);
        }
        assert forall j :: 0 <= j <= kept ==> !words[word][j] by {
          assert forall j :: 0 <= j < WORD_BITS ==> !value[j];
        }
        forall s | s in Slots() && s <= from ensures s < word * WORD_BITS {
          assert Occupied(s);
        }
        next := word;
      }
      return None;
    }
  }
}
