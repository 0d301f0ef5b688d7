/**
 * How far a pipeline over the real rings gets: the steps of a run that do more than wait are bounded in
 * advance, and a schedule that never forgets a thread runs to completion.
 */
module RingProgress {
  import opened Types
  import E = Engine
  import opened Gateway
  import opened RingPipeline
  import P = Pipeline
  import R = Ring

  /** The rings and what they stand for are both in order. */
  ghost predicate Sound(s: State) {
    Inv(s) && (RingsHold(s); P.Inv(Abs(s)))
  }

  /** Steps already invested in an operation that is going to succeed. */
  function Invested(steps: nat): nat {
    if steps <= 1 then 2 - steps else 0
  }

  function Credit(s: State): nat {
    Invested(PushSteps(s.inbound.producer)) + Invested(PopSteps(s.inbound.consumer))
    + Invested(PushSteps(s.outbound.producer)) + Invested(PopSteps(s.outbound.consumer))
  }

  /** Three steps for each unit of outstanding work, less what has been invested. */
  ghost function Left(s: State): nat
    requires Sound(s)
  {
    RingsHold(s);
    P.SentInRange(Abs(s));
    CreditIsSmall(s);
    3 * P.Outstanding(Abs(s)) + 8 - Credit(s)
  }

  lemma {:induction false} CreditIsSmall(s: State)
    ensures Credit(s) <= 8
  {
  }

  /** A step that only waits: the first load of an operation, or one that shows as waiting. */
  ghost predicate Waits(s: State, t: P.Thread)
    requires Sound(s)
  {
    RingsHold(s);
    if Shows(s, t) then P.Spins(Abs(s), t) else Hidden(s, t) == 3
  }

  /** What a step does to the investment, and to the place of every other thread. */
  ghost predicate Moves(s: State, u: State, t: P.Thread)
    requires Sound(s)
  {
    RingsHold(s);
    && (if Shows(s, t) then Credit(s) <= Credit(u) + 2
        else Credit(u) == Credit(s) + (if Hidden(s, t) == 3 then 0 else 1))
    && (Shows(s, t) && P.Spins(Abs(s), t) ==> Credit(u) == Credit(s))
    && (forall o: P.Thread :: o != t ==> Hidden(u, o) == Hidden(s, o))
  }

  lemma {:induction false} InputMoves(s: State)
    requires Sound(s)
    ensures s.inbound.slots != [] && Moves(s, InputStep(s), P.InputThread)
  {
    hide R.Inv, R.Held, R.ProducerStep, P.Inv, P.FlagsOk;
    RingsHold(s);
    AbstractFlags(Abs(s));
    NotDoneYet(Abs(s));
    if s.core.sent < |s.core.commands| {
      PushStep(s.inbound, s.core.commands[s.core.sent]);
    }
  }

  lemma {:induction false} NotDoneYet(a: P.State)
    requires P.FlagsOk(a)
    ensures a.inputDone ==> a.sent == |a.commands|
  {
  }

  lemma {:induction false} PollMoves(s: State, husk: E.Command, draining: bool)
    requires Sound(s) && s.core.enginePos == if draining then P.EDrain else P.EPoll
    ensures s.inbound.slots != [] && Moves(s, PollInbound(s, husk, draining), P.EngineThread)
  {
    hide R.Inv, R.Held, R.ConsumerStep, P.Inv;
    RingsHold(s);
    PopStep(s.inbound, husk);
  }

  lemma {:induction false} EmitMoves(s: State, husk: E.Command)
    requires Sound(s) && s.core.enginePos.EPush?
    ensures s.inbound.slots != [] && s.outbound.slots != [] && Moves(s, EngineStep(s, husk), P.EngineThread)
  {
    hide R.Inv, R.Held, R.ProducerStep, P.Inv;
    RingsHold(s);
    PushStep(s.outbound, s.core.enginePos.record);
  }

  lemma {:induction false} LocalMoves(s: State, husk: E.Command)
    requires Sound(s) && !s.core.enginePos.EPoll? && !s.core.enginePos.EDrain? && !s.core.enginePos.EPush?
    ensures s.inbound.slots != [] && s.outbound.slots != [] && Moves(s, EngineStep(s, husk), P.EngineThread)
  {
    hide R.Inv, R.Held, Submit, P.Tally, P.Inv;
    RingsHold(s);
  }

  lemma {:induction false} OutputMoves(s: State, husk: P.Processed)
    requires Sound(s)
    ensures s.outbound.slots != [] && Moves(s, OutputStep(s, husk), P.OutputThread)
  {
    hide R.Inv, R.Held, R.ConsumerStep, P.Inv;
    RingsHold(s);
    if s.core.outputPos.OPoll? || s.core.outputPos.ODrain? {
      PopStep(s.outbound, husk);
    }
  }

  lemma {:induction false} StepMoves(s: State, t: Turn)
    requires Sound(s)
    ensures s.inbound.slots != [] && s.outbound.slots != [] && Moves(s, Step(s, t), t.thread)
  {
    hide Inv, P.Inv, Moves, InputStep, PollInbound, OutputStep, P.EngineStep;
    RingsHold(s);
    match t.thread
    case InputThread => InputMoves(s);
    case EngineThread =>
      if s.core.enginePos.EPoll? || s.core.enginePos.EDrain? {
        PollMoves(s, t.commandHusk, s.core.enginePos.EDrain?);
      } else if s.core.enginePos.EPush? {
        EmitMoves(s, t.commandHusk);
      } else {
        LocalMoves(s, t.commandHusk);
      }
    case OutputThread => OutputMoves(s, t.recordHusk);
  }

  /** Every step keeps the state sound; waiting leaves what is left alone, and every other step reduces it. */
  lemma {:induction false} StepShrinks(s: State, t: Turn)
    requires Sound(s)
    ensures s.inbound.slots != [] && s.outbound.slots != [] && Sound(Step(s, t))
    ensures if Waits(s, t.thread) then Left(Step(s, t)) == Left(s) else Left(Step(s, t)) < Left(s)
  {
    hide Inv, P.Inv, Step, Abs, P.Step, Shows, Hidden, P.Outstanding, P.FlagsOk, Credit;
    RingsHold(s);
    StepRefines(s, t);
    RingsHold(Step(s, t));
    StepMoves(s, t);
    AbstractFlags(Abs(s));
    P.StepKeeps(Abs(s), t.thread);
    AbstractFlags(P.Step(Abs(s), t.thread));
    P.WorkOnlyShrinks(Abs(s), t.thread);
  }

  // ---- The bound -----------------------------------------------------------------------------

  /** How many steps of a run do more than wait. */
  ghost function Worked(s: State, turns: seq<Turn>): nat
    requires Sound(s)
    decreases |turns|
  {
    if turns == [] then 0
    else
      StepShrinks(s, turns[0]);
      (if Waits(s, turns[0].thread) then 0 else 1) + Worked(Step(s, turns[0]), turns[1..])
  }

  lemma {:induction false} WorkIsBounded(s: State, turns: seq<Turn>)
    requires Sound(s)
    ensures Worked(s, turns) <= Left(s)
    decreases |turns|
  {
    hide Sound, Waits, Left, Step;
    if turns != [] {
      StepShrinks(s, turns[0]);
      WorkIsBounded(Step(s, turns[0]), turns[1..]);
    }
  }

  lemma {:induction false} StartIsSound(s: State, config: RiskConfig, commands: seq<E.Command>, inCapacity: nat,
                                        outCapacity: nat)
    requires Started(s, config, commands, inCapacity, outCapacity)
    ensures Sound(s) && Left(s) <= 54 * |commands| + 35
  {
    hide P.Inv, Inv, R.Initial;
    StartIsOk(s, config, commands, inCapacity, outCapacity);
    P.StartKeeps(config, commands, inCapacity, outCapacity);
  }

  /** However long a run over the rings waits, its working steps are bounded by the number of commands alone. */
  lemma {:induction false} RingWorkIsBounded(s: State, config: RiskConfig, commands: seq<E.Command>, inCapacity: nat,
                                             outCapacity: nat, turns: seq<Turn>)
    requires Started(s, config, commands, inCapacity, outCapacity)
    ensures Sound(s) && Worked(s, turns) <= 54 * |commands| + 35
  {
    hide Sound, Started, Worked, Left;
    StartIsSound(s, config, commands, inCapacity, outCapacity);
    WorkIsBounded(s, turns);
  }

  // ---- Fair schedules ------------------------------------------------------------------------

  ghost predicate Occurs(f: nat -> Turn, t: P.Thread, n: nat) {
    exists m: nat :: n <= m && f(m).thread == t
  }

  /** Every thread is scheduled again and again, in whatever order and however rarely. */
  ghost predicate Fair(f: nat -> Turn) {
    forall t: P.Thread, n: nat :: Occurs(f, t, n)
  }

  function RoundRobin(husks: Turn): nat -> Turn {
    (n: nat) =>
      husks.(thread := if n % 3 == 0 then P.InputThread else if n % 3 == 1 then P.EngineThread else P.OutputThread)
  }

  lemma {:induction false} RoundRobinIsFair(husks: Turn)
    ensures Fair(RoundRobin(husks))
  {
    var f := RoundRobin(husks);
    forall t: P.Thread, n: nat ensures Occurs(f, t, n) {
      var m := 3 * n + (if t.InputThread? then 0 else if t.EngineThread? then 1 else 2);
      assert n <= m && f(m).thread == t;
    }
  }

  /** The state after the first `n` turns of an endless schedule. */
  function At(s: State, f: nat -> Turn, n: nat): (u: State)
    requires s.inbound.slots != [] && s.outbound.slots != []
    ensures u.inbound.slots != [] && u.outbound.slots != []
  {
    if n == 0 then s
    else
      StepKeepsSlots(At(s, f, n - 1), f(n - 1));
      Step(At(s, f, n - 1), f(n - 1))
  }

  /** To an observer, `t` has more to do than wait. */
  ghost predicate HasWork(s: State, t: P.Thread)
    requires Sound(s)
  {
    RingsHold(s);
    !P.Spins(Abs(s), t)
  }

  /** Another thread's waiting does not make `t` wait. */
  lemma {:induction false} WaitingLeavesOthers(a: P.State, o: P.Thread, t: P.Thread)
    requires o != t && P.Spins(a, o) && !P.Spins(a, t)
    ensures !P.Spins(P.Step(a, o), t)
  {
  }

  /** While `t` has work, a step that only waits brings `t` no further away from doing it. */
  lemma {:induction false} StillCanWork(s: State, turn: Turn, t: P.Thread)
    requires Sound(s) && HasWork(s, t) && Waits(s, turn.thread)
    ensures s.inbound.slots != [] && s.outbound.slots != [] && Sound(Step(s, turn)) && HasWork(Step(s, turn), t)
    ensures if turn.thread == t then Hidden(Step(s, turn), t) < Hidden(s, t)
            else Hidden(Step(s, turn), t) == Hidden(s, t)
  {
    hide Inv, P.Inv, Step, Abs, P.Step, Shows, Hidden, P.Spins, Credit;
    RingsHold(s);
    StepShrinks(s, turn);
    StepRefines(s, turn);
    StepMoves(s, turn);
    RingsHold(Step(s, turn));
    if turn.thread != t && Shows(s, turn.thread) {
      WaitingLeavesOthers(Abs(s), turn.thread, t);
    }
  }

  /** A thread with work gets some of it done, or another does, if it keeps being scheduled. */
  lemma {:induction false} WorkHappens(s: State, f: nat -> Turn, n: nat, t: P.Thread, k: nat) returns (m: nat)
    requires s.inbound.slots != [] && s.outbound.slots != [] && Sound(At(s, f, n)) && Fair(f)
    requires HasWork(At(s, f, n), t) && n <= k && f(k).thread == t
    ensures n < m && Sound(At(s, f, m)) && Left(At(s, f, m)) < Left(At(s, f, n))
    decreases Hidden(At(s, f, n), t), k - n
  {
    hide Sound, Left, Waits, HasWork, Hidden, Step;
    var here := At(s, f, n);
    StepShrinks(here, f(n));
    if !Waits(here, f(n).thread) {
      m := n + 1;
    } else {
      StillCanWork(here, f(n), t);
      if f(n).thread == t {
        assert Occurs(f, t, n + 1);
        var next: nat :| n + 1 <= next && f(next).thread == t;
        m := WorkHappens(s, f, n + 1, t, next);
      } else {
        m := WorkHappens(s, f, n + 1, t, k);
      }
    }
  }

  lemma {:induction false} StepKeepsCapacities(s: State, t: Turn)
    requires s.inbound.slots != [] && s.outbound.slots != []
    ensures Step(s, t).core.inCapacity == s.core.inCapacity && Step(s, t).core.outCapacity == s.core.outCapacity
  {
    hide Submit, P.Tally, R.ProducerStep, R.ConsumerStep;
  }

  lemma {:induction false} CapacitiesKept(s: State, f: nat -> Turn, n: nat)
    requires s.inbound.slots != [] && s.outbound.slots != []
    ensures At(s, f, n).core.inCapacity == s.core.inCapacity && At(s, f, n).core.outCapacity == s.core.outCapacity
  {
    hide Step;
    if n > 0 {
      CapacitiesKept(s, f, n - 1);
      StepKeepsCapacities(At(s, f, n - 1), f(n - 1));
    }
  }

  lemma {:induction false} SomeoneHasWork(s: State) returns (t: P.Thread)
    requires Sound(s) && s.core.inCapacity >= 1 && s.core.outCapacity >= 1 && !P.Finished(s.core)
    ensures HasWork(s, t)
  {
    hide Inv, P.Inv, P.Spins;
    RingsHold(s);
    t := P.SomeThreadCanWork(Abs(s));
  }

  lemma {:induction false} ReachesTheEnd(s: State, f: nat -> Turn, n: nat) returns (m: nat)
    requires s.inbound.slots != [] && s.outbound.slots != [] && Sound(At(s, f, n)) && Fair(f)
    requires s.core.inCapacity >= 1 && s.core.outCapacity >= 1
    ensures n <= m && P.Finished(At(s, f, m).core)
    decreases Left(At(s, f, n))
  {
    hide Sound, Left, HasWork, At, P.Finished;
    var here := At(s, f, n);
    if P.Finished(here.core) {
      m := n;
    } else {
      CapacitiesKept(s, f, n);
      var t := SomeoneHasWork(here);
      assert Occurs(f, t, n);
      var k: nat :| n <= k && f(k).thread == t;
      var next := WorkHappens(s, f, n, t, k);
      m := ReachesTheEnd(s, f, next);
    }
  }

  function Turns(f: nat -> Turn, n: nat): seq<Turn> {
    seq(n, i requires 0 <= i < n => f(i))
  }

  lemma {:induction false} AtIsARun(s: State, f: nat -> Turn, n: nat)
    requires s.inbound.slots != [] && s.outbound.slots != []
    ensures At(s, f, n) == Run(s, Turns(f, n))
  {
    hide Step;
    if n > 0 {
      AtIsARun(s, f, n - 1);
      assert Turns(f, n) == Turns(f, n - 1) + [f(n - 1)];
      RunAppends(s, Turns(f, n - 1), [f(n - 1)]);
      assert [f(n - 1)][1..] == [];
    }
  }

  /**
   * Every fair schedule of loads, slot accesses and stores runs to completion, and then the records, the
   * engine and the counters are those of the single-threaded run.
   */
  lemma {:induction false} FairRunsFinish(s: State, config: RiskConfig, commands: seq<E.Command>, inCapacity: nat,
                                          outCapacity: nat, f: nat -> Turn) returns (n: nat)
    requires Started(s, config, commands, inCapacity, outCapacity) && Fair(f)
    ensures s.inbound.slots != [] && s.outbound.slots != [] && P.Finished(At(s, f, n).core)
    ensures var u := At(s, f, n).core;
            && u.sunk == P.Records(E.Fresh(P.BookSpec.Baseline), config, commands)
            && u.snapshot == Some(SubmitAll(E.Fresh(P.BookSpec.Baseline), config, commands).engine)
            && CountsTheRun(u.stats, config, commands)
  {
    hide Started, Sound, Left, Fair, At, Run, P.Finished, P.Records, CountsTheRun, SubmitAll;
    StartIsSound(s, config, commands, inCapacity, outCapacity);
    CapacitiesAreReal(s, config, commands, inCapacity, outCapacity);
    HasSlots(s);
    StartsHere(s, f);
    n := ReachesTheEnd(s, f, 0);
    AtIsARun(s, f, n);
    FinishedIsSequential(s, config, commands, inCapacity, outCapacity, Turns(f, n));
  }

  lemma {:induction false} HasSlots(s: State)
    requires Sound(s)
    ensures s.inbound.slots != [] && s.outbound.slots != []
  {
    hide Inv, P.Inv;
    RingsHold(s);
  }

  lemma {:induction false} StartsHere(s: State, f: nat -> Turn)
    requires s.inbound.slots != [] && s.outbound.slots != []
    ensures At(s, f, 0) == s
  {
  }
}
