/**
 * The single-producer single-consumer ring, with every push and pop split into its own index load,
 * the load of the other side's index, the slot access and the index store. A schedule is any
 * interleaving of such steps.
 */
module Ring {

  datatype Producer<T> =
    | PIdle
    | PLoaded(value: T, tail: nat)  // own index read
    | PReady(value: T, tail: nat)   // the other index was read and there was room
    | PWrote(value: T, tail: nat)   // slot written, index not yet published

  datatype Consumer<T> =
    | CIdle
    | CLoaded(head: nat)
    | CReady(head: nat)
    | CTook(head: nat, value: T)    // slot moved from, index not yet published

  /** `pushed` and `popped` record what the two sides have published so far. */
  datatype Ring<T> = Ring(slots: seq<T>, head: nat, tail: nat, producer: Producer<T>, consumer: Consumer<T>,
                          pushed: seq<T>, popped: seq<T>)

  /** One side's next step; a producer about to start pushes `value`, a moved-from slot is left holding `husk`. */
  datatype Turn<T> = Produce(value: T) | Consume(husk: T)

  function NextIndex(i: nat, slots: nat): nat
    requires slots > 0
  {
    (i + 1) % slots
  }

  function ProducerStep<T>(r: Ring<T>, value: T): Ring<T>
    requires r.slots != []
  {
    match r.producer
    case PIdle => r.(producer := PLoaded(value, r.tail))
    case PLoaded(v, t) =>
      if NextIndex(t, |r.slots|) == r.head then r.(producer := PIdle) else r.(producer := PReady(v, t))
    case PReady(v, t) =>
      if t < |r.slots| then r.(slots := r.slots[t := v], producer := PWrote(v, t)) else r
    case PWrote(v, t) =>
      r.(tail := NextIndex(t, |r.slots|), producer := PIdle, pushed := r.pushed + [v])
  }

  function ConsumerStep<T>(r: Ring<T>, husk: T): Ring<T>
    requires r.slots != []
  {
    match r.consumer
    case CIdle => r.(consumer := CLoaded(r.head))
    case CLoaded(h) => if h == r.tail then r.(consumer := CIdle) else r.(consumer := CReady(h))
    case CReady(h) =>
      if h < |r.slots| then r.(slots := r.slots[h := husk], consumer := CTook(h, r.slots[h])) else r
    case CTook(h, v) => r.(head := NextIndex(h, |r.slots|), consumer := CIdle, popped := r.popped + [v])
  }

  function Step<T>(r: Ring<T>, turn: Turn<T>): Ring<T>
    requires r.slots != []
  {
    match turn
    case Produce(value) => ProducerStep(r, value)
    case Consume(husk) => ConsumerStep(r, husk)
  }

  function Run<T>(r: Ring<T>, turns: seq<Turn<T>>): (s: Ring<T>)
    requires r.slots != []
    ensures |s.slots| == |r.slots|
    decreases |turns|
  {
    if turns == [] then r else Run(Step(r, turns[0]), turns[1..])
  }

  /** `capacity` usable slots and one spare; the initial slot contents do not matter. */
  predicate Initial<T(==)>(r: Ring<T>, capacity: nat) {
    && capacity >= 1 && |r.slots| == capacity + 1
    && r.head == 0 && r.tail == 0 && r.producer.PIdle? && r.consumer.CIdle? && r.pushed == [] && r.popped == []
  }

  // ---- The invariant of every interleaving ---------------------------------------------------

  /** Consecutive positions modulo the slot count. */
  ghost predicate IndicesOk<T>(r: Ring<T>) {
    && |r.slots| >= 2
    && r.tail == |r.pushed| % |r.slots| && r.head == |r.popped| % |r.slots|
    && |r.popped| <= |r.pushed| <= |r.popped| + |r.slots| - 1
  }

  /** A slot the consumer has already moved from is no longer owed to it. */
  function FirstOwed<T>(r: Ring<T>): nat {
    if r.consumer.CTook? then |r.popped| + 1 else |r.popped|
  }

  ghost predicate SlotsOk<T>(r: Ring<T>)
    requires |r.slots| >= 2
  {
    forall k :: FirstOwed(r) <= k < |r.pushed| ==> r.slots[k % |r.slots|] == r.pushed[k]
  }

  /** However stale the other side's index has become, what each side concluded from it still holds. */
  ghost predicate ViewsOk<T>(r: Ring<T>)
    requires |r.slots| >= 2
  {
    && (match r.producer
        case PIdle => true
        case PLoaded(_, t) => t == r.tail
        case PReady(_, t) => t == r.tail && |r.pushed| - |r.popped| < |r.slots| - 1
        case PWrote(v, t) => t == r.tail && |r.pushed| - |r.popped| < |r.slots| - 1 && t < |r.slots| && r.slots[t] == v)
    && (match r.consumer
        case CIdle => true
        case CLoaded(h) => h == r.head
        case CReady(h) => h == r.head && |r.popped| < |r.pushed|
        case CTook(h, v) => h == r.head && |r.popped| < |r.pushed| && v == r.pushed[|r.popped|])
  }

  ghost predicate Inv<T>(r: Ring<T>) {
    IndicesOk(r) && SlotsOk(r) && ViewsOk(r) && r.popped <= r.pushed
  }

  lemma {:induction false} ModAdvances(a: nat, n: nat)
    requires n > 0
    ensures (a % n + 1) % n == (a + 1) % n
  {
    var q, m := a / n, a % n;
    assert a == n * q + m;
    if m + 1 < n {
      ModOf(a + 1, n, q, m + 1);
      ModOf(m + 1, n, 0, m + 1);
    } else {
      assert n * (q + 1) == n * q + n;
      ModOf(a + 1, n, q + 1, 0);
      ModOf(n, n, 1, 0);
    }
  }

  lemma {:induction false} ModOf(a: nat, n: nat, q: nat, m: nat)
    requires n > 0 && a == n * q + m && m < n
    ensures a % n == m && a / n == q
  {
    var d := a / n - q;
    assert m - a % n == n * d;
    SmallMultiple(n, d);
  }

  lemma {:induction false} SmallMultiple(n: nat, d: int)
    requires 0 < n * d + n && n * d < n
    ensures d == 0
  {
  }

  /** Fewer than `n` apart, different slots. */
  lemma {:induction false} ModDiffers(a: nat, b: nat, n: nat)
    requires a < b < a + n
    ensures a % n != b % n
  {
    var d := b / n - a / n;
    assert b - a == n * d + (b % n - a % n);
    if d > 0 {
      assert n * d >= n;
    }
  }

  /** No slot the consumer is still owed, and not the one it is moving from, is the one being written. */
  lemma {:induction false} WrittenSlotIsFree<T>(r: Ring<T>, k: nat)
    requires Inv(r) && r.producer.PReady? && |r.popped| <= k < |r.pushed|
    ensures r.producer.tail != k % |r.slots|
    ensures r.consumer.CReady? || r.consumer.CTook? ==> r.producer.tail != r.consumer.head
  {
    ModDiffers(k, |r.pushed|, |r.slots|);
    ModDiffers(|r.popped|, |r.pushed|, |r.slots|);
  }

  lemma {:induction false} ProducerKeeps<T>(r: Ring<T>, value: T)
    requires Inv(r)
    ensures Inv(ProducerStep(r, value))
  {
    var s := ProducerStep(r, value);
    var n := |r.slots|;
    match r.producer
    case PIdle =>
    case PLoaded(v, t) =>
      if NextIndex(t, n) != r.head {
        RoomIsRoom(r);
      }
    case PReady(v, t) =>
      forall k | FirstOwed(s) <= k < |s.pushed| ensures s.slots[k % n] == s.pushed[k] {
        WrittenSlotIsFree(r, k);
      }
    case PWrote(v, t) =>
      ModAdvances(|r.pushed|, n);
  }

  /** "Next is not the other index" means there is room, and the reverse. */
  lemma {:induction false} RoomIsRoom<T>(r: Ring<T>)
    requires IndicesOk(r)
    ensures NextIndex(r.tail, |r.slots|) != r.head <==> |r.pushed| - |r.popped| < |r.slots| - 1
  {
    var n := |r.slots|;
    ModAdvances(|r.pushed|, n);
    if |r.pushed| - |r.popped| == n - 1 {
      assert |r.pushed| + 1 == |r.popped| + n;
      ModAddN(|r.popped|, n);
    } else {
      ModDiffers(|r.popped|, |r.pushed| + 1, n);
    }
  }

  lemma {:induction false} ModAddN(a: nat, n: nat)
    requires n > 0
    ensures (a + n) % n == a % n
  {
    assert a == n * (a / n) + a % n;
    assert n * (a / n + 1) == n * (a / n) + n;
    ModOf(a + n, n, a / n + 1, a % n);
  }

  lemma {:induction false} EmptyIsEmpty<T>(r: Ring<T>)
    requires IndicesOk(r)
    ensures r.head == r.tail <==> |r.popped| == |r.pushed|
  {
    if |r.popped| < |r.pushed| {
      ModDiffers(|r.popped|, |r.pushed|, |r.slots|);
    }
  }

  lemma {:induction false} ConsumerKeeps<T>(r: Ring<T>, husk: T)
    requires Inv(r)
    ensures Inv(ConsumerStep(r, husk))
  {
    var s := ConsumerStep(r, husk);
    var n := |r.slots|;
    match r.consumer
    case CIdle =>
    case CLoaded(h) =>
      EmptyIsEmpty(r);
    case CReady(h) =>
      assert h < n && r.slots[h] == r.pushed[|r.popped|];
      forall k | FirstOwed(s) <= k < |s.pushed| ensures s.slots[k % n] == s.pushed[k] {
        ModDiffers(|r.popped|, k, n);
      }
      if r.producer.PWrote? {
        ModDiffers(|r.popped|, |r.pushed|, n);
      }
    case CTook(h, v) =>
      ModAdvances(|r.popped|, n);
      assert s.popped == r.popped + [r.pushed[|r.popped|]];
  }

  lemma {:induction false} StepKeeps<T>(r: Ring<T>, turn: Turn<T>)
    requires Inv(r)
    ensures Inv(Step(r, turn)) && |Step(r, turn).slots| == |r.slots|
  {
    hide Inv, ProducerStep, ConsumerStep;
    match turn
    case Produce(value) => ProducerKeeps(r, value); ProducerKeepsSize(r, value);
    case Consume(husk) => ConsumerKeeps(r, husk); ConsumerKeepsSize(r, husk);
  }

  lemma {:induction false} ProducerKeepsSize<T>(r: Ring<T>, value: T)
    requires Inv(r)
    ensures r.slots != [] && |ProducerStep(r, value).slots| == |r.slots|
  {
  }

  lemma {:induction false} ConsumerKeepsSize<T>(r: Ring<T>, husk: T)
    requires Inv(r)
    ensures r.slots != [] && |ConsumerStep(r, husk).slots| == |r.slots|
  {
  }

  lemma {:induction false} HasSlots<T>(r: Ring<T>)
    requires Inv(r)
    ensures r.slots != []
  {
  }

  /** Every interleaving, every capacity. */
  lemma {:induction false} RunKeeps<T>(r: Ring<T>, turns: seq<Turn<T>>)
    requires Inv(r)
    ensures r.slots != [] && Inv(Run(r, turns))
    decreases |turns|
  {
    hide Inv, Step;
    HasSlots(r);
    if turns != [] {
      StepKeeps(r, turns[0]);
      RunKeeps(Step(r, turns[0]), turns[1..]);
    }
  }

  lemma {:induction false} InitialKeeps<T>(r: Ring<T>, capacity: nat)
    requires Initial(r, capacity)
    ensures Inv(r)
  {
  }

  // ---- What it means for a user of the ring --------------------------------------------------

  /** What has been published and not yet taken. */
  function Held<T>(r: Ring<T>): seq<T>
    requires |r.popped| <= |r.pushed|
  {
    r.pushed[|r.popped|..]
  }

  /** The two sides' next slot accesses never touch the same slot. */
  ghost predicate NoRace<T>(r: Ring<T>) {
    r.producer.PReady? && r.consumer.CReady? ==> r.producer.tail != r.consumer.head
  }

  /** Lossless, in order, bounded and free of slot races, in every interleaving. */
  lemma {:induction false} RunIsFifo<T>(r: Ring<T>, capacity: nat, turns: seq<Turn<T>>)
    requires Initial(r, capacity)
    ensures var s := Run(r, turns);
            && s.popped <= s.pushed && s.pushed == s.popped + Held(s)
            && |Held(s)| <= capacity
            && NoRace(s)
  {
    hide Initial;
    InitialSize(r, capacity);
    InitialKeeps(r, capacity);
    RunKeeps(r, turns);
    var s := Run(r, turns);
    if s.producer.PReady? && s.consumer.CReady? {
      WrittenSlotIsFree(s, |s.popped|);
    }
  }

  lemma {:induction false} InitialSize<T>(r: Ring<T>, capacity: nat)
    requires Initial(r, capacity)
    ensures |r.slots| == capacity + 1
  {
  }

  /** What an atomic bounded queue would say about a step. */
  datatype Effect<T> = Silent | Enqueued(value: T) | WasFull | Dequeued(value: T) | WasEmpty

  function EffectOf<T(==)>(r: Ring<T>, turn: Turn<T>): Effect<T>
    requires r.slots != []
  {
    match turn
    case Produce(_) =>
      if r.producer.PWrote? then Enqueued(r.producer.value)
      else if r.producer.PLoaded? && NextIndex(r.producer.tail, |r.slots|) == r.head then WasFull
      else Silent
    case Consume(_) =>
      if r.consumer.CTook? then Dequeued(r.consumer.value)
      else if r.consumer.CLoaded? && r.consumer.head == r.tail then WasEmpty
      else Silent
  }

  ghost predicate AtomicQueueAllows<T>(q: seq<T>, capacity: nat, e: Effect<T>, q': seq<T>) {
    match e
    case Silent => q' == q
    case Enqueued(v) => |q| < capacity && q' == q + [v]
    case WasFull => |q| == capacity && q' == q
    case Dequeued(v) => q != [] && v == q[0] && q' == q[1..]
    case WasEmpty => q == [] && q' == q
  }

  /**
   * The ring is a linearizable bounded queue: each step is either silent or is exactly one atomic
   * queue operation; a push fails only on a queue that is full at that moment, and changes nothing.
   */
  lemma {:induction false} StepIsAtomic<T>(r: Ring<T>, turn: Turn<T>)
    requires Inv(r)
    ensures r.slots != [] && |r.popped| <= |r.pushed| && |Step(r, turn).popped| <= |Step(r, turn).pushed|
    ensures AtomicQueueAllows(Held(r), |r.slots| - 1, EffectOf(r, turn), Held(Step(r, turn)))
  {
    var s := Step(r, turn);
    match turn
    case Produce(value) =>
      if r.producer.PLoaded? { RoomIsRoom(r); }
      if r.producer.PWrote? {
        assert (r.pushed + [r.producer.value])[|r.popped|..] == Held(r) + [r.producer.value];
      }
    case Consume(husk) =>
      if r.consumer.CLoaded? { EmptyIsEmpty(r); }
      if r.consumer.CTook? {
        assert r.pushed[|r.popped| + 1..] == Held(r)[1..];
      }
  }
}
