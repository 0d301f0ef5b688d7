/** Fixed-capacity slot pool with a free list and live flags (order and node pools alike). */
module SlotPool {
  import opened Types

  ghost predicate Distinct(s: seq<nat>) {
    forall i, j :: 0 <= i < j < |s| ==> s[i] != s[j]
  }

  /** The free list holds exactly the dead slots, each once. */
  ghost predicate FreeListOk(live: seq<bool>, free: seq<nat>) {
    && Distinct(free)
    && (forall k :: 0 <= k < |free| ==> free[k] < |live|)
    && (forall i :: 0 <= i < |live| ==> (i in free <==> !live[i]))
  }

  function LiveSlots(live: seq<bool>): set<nat> {
    set i: nat | i < |live| && live[i]
  }

  lemma {:induction false} CountDistinct(s: seq<nat>, elems: set<nat>)
    requires Distinct(s) && forall x :: x in elems <==> x in s
    ensures |elems| == |s|
    decreases |s|
  {
    if s == [] {
      assert elems == {};
    } else {
      var x := s[0];
      assert forall y :: y in s[1..] ==> y in s;
      forall y ensures y in elems - {x} <==> y in s[1..] {
        if y in s && y != x {
          var i :| 0 <= i < |s| && s[i] == y;
          assert s[1..][i - 1] == y;
        }
        if y in s[1..] {
          var i :| 0 <= i < |s[1..]| && s[1..][i] == y;
          assert s[i + 1] == y;
        }
      }
      assert x in s;
      CountDistinct(s[1..], elems - {x});
    }
  }

  /** The slots below `n`. */
  ghost function Below(n: nat): (s: set<nat>)
    ensures forall i: nat :: i in s <==> i < n
    ensures |s| == n
  {
    if n == 0 then {} else Below(n - 1) + {n - 1}
  }

  /** Live slots and free slots make up the capacity. */
  lemma {:induction false} LiveAndFree(live: seq<bool>, free: seq<nat>)
    requires FreeListOk(live, free)
    ensures |LiveSlots(live)| + |free| == |live|
  {
    var all := Below(|live|);
    var dead := set i: nat | i < |live| && !live[i];
    assert forall x :: x in dead <==> x in free;
    CountDistinct(free, dead);
    assert all == LiveSlots(live) + dead && LiveSlots(live) !! dead;
  }

  lemma {:induction false} TakeKeepsList(live: seq<bool>, free: seq<nat>)
    requires FreeListOk(live, free) && free != []
    ensures var i := free[|free| - 1];
            i < |live| && !live[i] && FreeListOk(live[i := true], free[..|free| - 1])
  {
    var n := |free| - 1;
    var i := free[n];
    assert i in free;
    forall j | 0 <= j < |live| ensures j in free[..n] <==> !live[i := true][j] {
      if j in free && j != i {
        var k :| 0 <= k < |free| && free[k] == j;
        assert free[..n][k] == j;
      }
    }
  }

  lemma {:induction false} ReturnKeepsList(live: seq<bool>, free: seq<nat>, i: nat)
    requires FreeListOk(live, free) && i < |live| && live[i]
    ensures FreeListOk(live[i := false], free + [i])
    ensures |free| < |live|
  {
    LiveAndFree(live, free);
    assert i in LiveSlots(live);
    assert i !in free;
    var f := free + [i];
    forall j | 0 <= j < |live| ensures j in f <==> !live[i := false][j] {
      assert j in f <==> j in free || j == i;
    }
  }

  class Pool<T> {
    const slots: array<T>
    const live: array<bool>
    const free: array<nat>
    var freeCount: nat

    ghost predicate Valid()
      reads this, slots, live, free
    {
      && slots.Length == live.Length == free.Length && freeCount <= free.Length
      && live as object != free as object && slots as object != live as object && slots as object != free as object
      && FreeListOk(live[..], free[..freeCount])
    }

    /** The live slots and what they hold. */
    ghost function Held(): map<nat, T>
      reads this, slots, live
      requires slots.Length == live.Length
    {
      map i: nat | i < live.Length && live[i] :: slots[i]
    }

    constructor (capacity: nat, filler: T)
      ensures Valid() && freeCount == capacity == slots.Length && Held() == map[]
      ensures fresh(slots) && fresh(live) && fresh(free)
    {
      slots := new T[capacity](_ => filler);
      live := new bool[capacity](_ => false);
      free := new nat[capacity](i requires 0 <= i < capacity => capacity - 1 - i);
      freeCount := capacity;
      new;
      forall i | 0 <= i < capacity ensures i in free[..capacity] {
        assert free[..capacity][capacity - 1 - i] == i;
      }
    }

    method TryAcquire(x: T) returns (r: Option<nat>)
      requires Valid()
      modifies this, slots, live
      ensures Valid()
      ensures old(freeCount) == 0 ==> r.None? && Held() == old(Held()) && freeCount == 0
      ensures old(freeCount) > 0 ==>
                r.Some? && r.value !in old(Held()) && Held() == old(Held())[r.value := x]
                && freeCount == old(freeCount) - 1
    {
      hide Distinct;
      if freeCount == 0 {
        return None;
      }
      TakeKeepsList(live[..], free[..freeCount]);
      var i := free[freeCount - 1];
      assert free[..freeCount][..freeCount - 1] == free[..freeCount - 1];
      slots[i] := x;
      freeCount := freeCount - 1;
      live[i] := true;
      assert live[..] == old(live[..])[i := true];
      return Some(i);
    }

    /** False, and nothing changed, for a slot that is not live. */
    method Release(i: nat) returns (ok: bool)
      requires Valid()
      modifies this, live, free
      ensures Valid() && ok == (i in old(Held())) && Held() == old(Held()) - {i}
      ensures freeCount == old(freeCount) + (if ok then 1 else 0)
    {
      hide Distinct;
      if i >= live.Length || !live[i] {
        return false;
      }
      ReturnKeepsList(live[..], free[..freeCount], i);
      live[i] := false;
      free[freeCount] := i;
      freeCount := freeCount + 1;
      assert live[..] == old(live[..])[i := false];
      assert free[..freeCount] == old(free[..freeCount]) + [i];
      return true;
    }

    function Get(i: nat): (x: T)
      reads this, slots, live, free
      requires Valid() && i in Held()
      ensures x == Held()[i]
    {
      slots[i]
    }

    method Write(i: nat, x: T)
      requires Valid() && i in Held()
      modifies slots
      ensures Valid() && Held() == old(Held())[i := x]
    {
      slots[i] := x;
    }

    /** What is held and what is free add up to the capacity. */
    lemma Counts()
      requires Valid()
      ensures |Held()| + freeCount == slots.Length
    {
      LiveAndFree(live[..], free[..freeCount]);
      assert Held().Keys == LiveSlots(live[..]);
    }
  }
}
