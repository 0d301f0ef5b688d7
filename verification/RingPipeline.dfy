/**
 * The pipeline over the real rings: every push and pop takes its single loads, slot access and store,
 * interleaved with everything else. Each such step is either invisible or exactly one step of the
 * pipeline over atomic queues, so all that is proved there holds here.
 */
module RingPipeline {
  import opened Types
  import opened Engine
  import opened Gateway
  import P = Pipeline
  import R = Ring

  /** The queues of `core` are not used; the rings are. */
  datatype State = State(core: P.State, inbound: R.Ring<Command>, outbound: R.Ring<P.Processed>)

  /** Which thread moves next, and what a slot it moves a value out of is left holding. */
  datatype Turn = Turn(thread: P.Thread, commandHusk: Command, recordHusk: P.Processed)

  function InputStep(s: State): State
    requires s.inbound.slots != []
  {
    if s.core.sent < |s.core.commands| then
      var sent := if s.inbound.producer.PWrote? then s.core.sent + 1 else s.core.sent;
      s.(core := s.core.(sent := sent), inbound := R.ProducerStep(s.inbound, s.core.commands[s.core.sent]))
    else s.(core := s.core.(inputDone := true))
  }

  /** One step of a pop from the inbound ring, at the polling or the draining position. */
  function PollInbound(s: State, husk: Command, draining: bool): State
    requires s.inbound.slots != []
  {
    var r := s.inbound;
    var pos := if r.consumer.CTook? then P.EGot(r.consumer.value, draining)
               else if r.consumer.CLoaded? && r.consumer.head == r.tail then if draining then P.EFinish else P.ECheck
               else s.core.enginePos;
    s.(core := s.core.(enginePos := pos), inbound := R.ConsumerStep(r, husk))
  }

  function EngineStep(s: State, husk: Command): State
    requires s.inbound.slots != [] && s.outbound.slots != []
  {
    match s.core.enginePos
    case EPoll => PollInbound(s, husk, false)
    case EDrain => PollInbound(s, husk, true)
    case EPush(p, draining) =>
      var pos := if s.outbound.producer.PWrote? then if draining then P.EDrain else P.EPoll else s.core.enginePos;
      s.(core := s.core.(enginePos := pos), outbound := R.ProducerStep(s.outbound, p))
    case _ => s.(core := P.EngineStep(s.core))
  }

  function PollOutbound(s: State, husk: P.Processed, draining: bool): State
    requires s.outbound.slots != []
  {
    var r := s.outbound;
    var pos := if r.consumer.CTook? then P.OGot(r.consumer.value, draining)
               else if r.consumer.CLoaded? && r.consumer.head == r.tail then if draining then P.ODone else P.OCheck
               else s.core.outputPos;
    s.(core := s.core.(outputPos := pos), outbound := R.ConsumerStep(r, husk))
  }

  function OutputStep(s: State, husk: P.Processed): State
    requires s.outbound.slots != []
  {
    match s.core.outputPos
    case OPoll => PollOutbound(s, husk, false)
    case ODrain => PollOutbound(s, husk, true)
    case _ => s.(core := P.OutputStep(s.core))
  }

  function Step(s: State, t: Turn): State
    requires s.inbound.slots != [] && s.outbound.slots != []
  {
    match t.thread
    case InputThread => InputStep(s)
    case EngineThread => EngineStep(s, t.commandHusk)
    case OutputThread => OutputStep(s, t.recordHusk)
  }

  // ---- The invariant and the abstraction -----------------------------------------------------

  /** A thread is inside a queue operation only where its program is, and pushes only what it is about to push. */
  ghost predicate InPlace(s: State) {
    && (!s.inbound.producer.PIdle? ==>
          s.core.sent < |s.core.commands| && s.inbound.producer.value == s.core.commands[s.core.sent])
    && (!s.inbound.consumer.CIdle? ==> s.core.enginePos.EPoll? || s.core.enginePos.EDrain?)
    && (!s.outbound.producer.PIdle? ==> s.core.enginePos.EPush? && s.outbound.producer.value == s.core.enginePos.record)
    && (!s.outbound.consumer.CIdle? ==> s.core.outputPos.OPoll? || s.core.outputPos.ODrain?)
  }

  ghost predicate RingsOk(s: State) {
    && R.Inv(s.inbound) && |s.inbound.slots| == s.core.inCapacity + 1
    && R.Inv(s.outbound) && |s.outbound.slots| == s.core.outCapacity + 1
  }

  ghost predicate Inv(s: State) {
    RingsOk(s) && InPlace(s)
  }

  lemma {:induction false} RingsHold(s: State)
    requires Inv(s)
    ensures s.inbound.slots != [] && s.outbound.slots != []
    ensures |s.inbound.popped| <= |s.inbound.pushed| && |s.outbound.popped| <= |s.outbound.pushed|
  {
  }

  /** What an observer of the atomic queues would see. */
  ghost function Abs(s: State): P.State
    requires |s.inbound.popped| <= |s.inbound.pushed| && |s.outbound.popped| <= |s.outbound.pushed|
  {
    s.core.(inbound := R.Held(s.inbound), outbound := R.Held(s.outbound))
  }

  // ---- Which steps show ----------------------------------------------------------------------

  /** The next step completes a push: the index store, or the load that finds the ring full. */
  predicate PushShows<T>(r: R.Ring<T>)
    requires r.slots != []
  {
    r.producer.PWrote? || (r.producer.PLoaded? && R.NextIndex(r.producer.tail, |r.slots|) == r.head)
  }

  /** The next step completes a pop: the index store, or the load that finds the ring empty. */
  predicate PopShows<T>(r: R.Ring<T>) {
    r.consumer.CTook? || (r.consumer.CLoaded? && r.consumer.head == r.tail)
  }

  predicate Shows(s: State, t: P.Thread)
    requires s.inbound.slots != [] && s.outbound.slots != []
  {
    match t
    case InputThread => s.core.sent >= |s.core.commands| || PushShows(s.inbound)
    case EngineThread =>
      if s.core.enginePos.EPoll? || s.core.enginePos.EDrain? then PopShows(s.inbound)
      else s.core.enginePos.EPush? ==> PushShows(s.outbound)
    case OutputThread => s.core.outputPos.OPoll? || s.core.outputPos.ODrain? ==> PopShows(s.outbound)
  }

  function PushSteps<T>(p: R.Producer<T>): nat {
    match p
    case PIdle => 3
    case PLoaded(_, _) => 2
    case PReady(_, _) => 1
    case PWrote(_, _) => 0
  }

  function PopSteps<T>(c: R.Consumer<T>): nat {
    match c
    case CIdle => 3
    case CLoaded(_) => 2
    case CReady(_) => 1
    case CTook(_, _) => 0
  }

  /** How many invisible steps a thread can still take in a row. */
  function Hidden(s: State, t: P.Thread): nat {
    match t
    case InputThread => PushSteps(s.inbound.producer)
    case EngineThread =>
      if s.core.enginePos.EPush? then PushSteps(s.outbound.producer) else PopSteps(s.inbound.consumer)
    case OutputThread => PopSteps(s.outbound.consumer)
  }

  /** `u` is `s` after an invisible step, or after one step of the pipeline over atomic queues. */
  ghost predicate Refines(s: State, u: State, t: P.Thread) {
    && Inv(s) && Inv(u)
    && (RingsHold(s);
        RingsHold(u);
        if Shows(s, t) then Abs(u) == P.Step(Abs(s), t) else Abs(u) == Abs(s) && Hidden(u, t) < Hidden(s, t))
  }

  /** What one step of a push does to the ring and to the queue it stands for. */
  lemma {:induction false} PushStep<T>(r: R.Ring<T>, value: T)
    requires R.Inv(r)
    ensures r.slots != [] && |r.popped| <= |r.pushed|
    ensures var n := R.ProducerStep(r, value);
            && R.Inv(n) && |n.slots| == |r.slots| && n.consumer == r.consumer && |n.popped| <= |n.pushed|
            && (match r.producer
                case PWrote(v, _) =>
                  |R.Held(r)| < |r.slots| - 1 && R.Held(n) == R.Held(r) + [v] && n.producer.PIdle?
                case PIdle => R.Held(n) == R.Held(r) && n.producer.PLoaded? && n.producer.value == value
                case PLoaded(v, _) =>
                  && R.Held(n) == R.Held(r)
                  && (if PushShows(r) then n.producer.PIdle? && |R.Held(r)| == |r.slots| - 1
                      else n.producer.PReady? && n.producer.value == v)
                case PReady(v, _) => R.Held(n) == R.Held(r) && n.producer.PWrote? && n.producer.value == v)
  {
    R.HasSlots(r);
    R.StepKeeps(r, R.Produce(value));
    R.StepIsAtomic(r, R.Produce(value));
  }

  /** What one step of a pop does to the ring and to the queue it stands for. */
  lemma {:induction false} PopStep<T>(r: R.Ring<T>, husk: T)
    requires R.Inv(r)
    ensures r.slots != [] && |r.popped| <= |r.pushed|
    ensures var n := R.ConsumerStep(r, husk);
            && R.Inv(n) && |n.slots| == |r.slots| && n.producer == r.producer && |n.popped| <= |n.pushed|
            && (match r.consumer
                case CTook(_, v) =>
                  R.Held(r) != [] && v == R.Held(r)[0] && R.Held(n) == R.Held(r)[1..] && n.consumer.CIdle?
                case CIdle => R.Held(n) == R.Held(r) && n.consumer.CLoaded?
                case CLoaded(_) =>
                  && R.Held(n) == R.Held(r)
                  && (if PopShows(r) then n.consumer.CIdle? && R.Held(r) == [] else n.consumer.CReady?)
                case CReady(_) => R.Held(n) == R.Held(r) && n.consumer.CTook?)
  {
    R.HasSlots(r);
    R.StepKeeps(r, R.Consume(husk));
    R.StepIsAtomic(r, R.Consume(husk));
  }

  lemma {:induction false} InputRefines(s: State)
    requires Inv(s)
    ensures s.inbound.slots != [] && Refines(s, InputStep(s), P.InputThread)
  {
    hide R.Inv, R.Held, R.ProducerStep;
    RingsHold(s);
    if s.core.sent < |s.core.commands| {
      PushStep(s.inbound, s.core.commands[s.core.sent]);
    }
    RingsHold(InputStep(s));
  }

  lemma {:induction false} PollRefines(s: State, husk: Command, draining: bool)
    requires Inv(s) && s.core.enginePos == if draining then P.EDrain else P.EPoll
    ensures s.inbound.slots != [] && Refines(s, PollInbound(s, husk, draining), P.EngineThread)
  {
    hide R.Inv, R.Held, Submit, P.Tally, R.ConsumerStep;
    RingsHold(s);
    PopStep(s.inbound, husk);
    RingsHold(PollInbound(s, husk, draining));
  }

  lemma {:induction false} EmitRefines(s: State, husk: Command)
    requires Inv(s) && s.core.enginePos.EPush?
    ensures s.inbound.slots != [] && s.outbound.slots != [] && Refines(s, EngineStep(s, husk), P.EngineThread)
  {
    hide R.Inv, R.Held, Submit, P.Tally, R.ProducerStep;
    RingsHold(s);
    PushStep(s.outbound, s.core.enginePos.record);
    RingsHold(EngineStep(s, husk));
  }

  /** Away from the queues the engine thread does what it did before. */
  lemma {:induction false} LocalRefines(s: State, husk: Command)
    requires Inv(s) && !s.core.enginePos.EPoll? && !s.core.enginePos.EDrain? && !s.core.enginePos.EPush?
    ensures s.inbound.slots != [] && s.outbound.slots != [] && Refines(s, EngineStep(s, husk), P.EngineThread)
  {
    hide R.Inv, R.Held, Submit, P.Tally;
    RingsHold(s);
    RingsHold(EngineStep(s, husk));
  }

  lemma {:induction false} EngineRefines(s: State, husk: Command)
    requires Inv(s)
    ensures s.inbound.slots != [] && s.outbound.slots != [] && Refines(s, EngineStep(s, husk), P.EngineThread)
  {
    RingsHold(s);
    if s.core.enginePos.EPoll? || s.core.enginePos.EDrain? {
      hide Inv, R.Inv, R.Held, Refines, P.EngineStep, PollInbound;
      PollRefines(s, husk, s.core.enginePos.EDrain?);
    } else if s.core.enginePos.EPush? {
      hide Inv, R.Inv, R.Held, Refines, P.EngineStep;
      EmitRefines(s, husk);
    } else {
      hide Inv, R.Inv, R.Held, Refines, P.EngineStep;
      LocalRefines(s, husk);
    }
  }

  lemma {:induction false} OutputRefines(s: State, husk: P.Processed)
    requires Inv(s)
    ensures s.outbound.slots != [] && Refines(s, OutputStep(s, husk), P.OutputThread)
  {
    hide R.Inv, R.Held, R.ConsumerStep;
    RingsHold(s);
    if s.core.outputPos.OPoll? || s.core.outputPos.ODrain? {
      PopStep(s.outbound, husk);
    }
    RingsHold(OutputStep(s, husk));
  }

  /** Every load, slot access and store of every thread, in every reachable state. */
  lemma {:induction false} StepRefines(s: State, t: Turn)
    requires Inv(s)
    ensures s.inbound.slots != [] && s.outbound.slots != [] && Refines(s, Step(s, t), t.thread)
  {
    hide Inv, Refines, InputStep, EngineStep, OutputStep;
    RingsHold(s);
    match t.thread
    case InputThread => InputRefines(s);
    case EngineThread => EngineRefines(s, t.commandHusk);
    case OutputThread => OutputRefines(s, t.recordHusk);
  }

  // ---- Whole runs ----------------------------------------------------------------------------

  function Run(s: State, turns: seq<Turn>): (u: State)
    requires s.inbound.slots != [] && s.outbound.slots != []
    ensures u.inbound.slots != [] && u.outbound.slots != []
    decreases |turns|
  {
    if turns == [] then s else Run(Step(s, turns[0]), turns[1..])
  }

  /** Every run over the rings is, to an observer, a run over atomic queues. */
  lemma {:induction false} RunRefines(s: State, turns: seq<Turn>) returns (schedule: seq<P.Thread>)
    requires Inv(s)
    ensures s.inbound.slots != [] && s.outbound.slots != [] && Inv(Run(s, turns))
    ensures var u := Run(s, turns);
            && |s.inbound.popped| <= |s.inbound.pushed| && |s.outbound.popped| <= |s.outbound.pushed|
            && |u.inbound.popped| <= |u.inbound.pushed| && |u.outbound.popped| <= |u.outbound.pushed|
            && Abs(u) == P.Run(Abs(s), schedule)
    decreases |turns|
  {
    hide Inv, Step, Abs, P.Step, Shows;
    RingsHold(s);
    if turns == [] {
      schedule := [];
    } else {
      StepRefines(s, turns[0]);
      RingsHold(Step(s, turns[0]));
      var rest := RunRefines(Step(s, turns[0]), turns[1..]);
      if Shows(s, turns[0].thread) {
        schedule := [turns[0].thread] + rest;
        assert schedule[1..] == rest;
      } else {
        schedule := rest;
      }
    }
  }

  ghost predicate Started(s: State, config: RiskConfig, commands: seq<Command>, inCapacity: nat, outCapacity: nat) {
    && s.core == P.Start(config, commands, inCapacity, outCapacity)
    && R.Initial(s.inbound, inCapacity) && R.Initial(s.outbound, outCapacity)
  }

  lemma {:induction false} StartIsOk(s: State, config: RiskConfig, commands: seq<Command>, inCapacity: nat,
                                     outCapacity: nat)
    requires Started(s, config, commands, inCapacity, outCapacity)
    ensures Inv(s) && |s.inbound.popped| <= |s.inbound.pushed| && |s.outbound.popped| <= |s.outbound.pushed|
    ensures Abs(s) == P.Start(config, commands, inCapacity, outCapacity)
  {
    R.InitialKeeps(s.inbound, inCapacity);
    R.InitialKeeps(s.outbound, outCapacity);
  }

  /** So many commands came, so many were accepted, the others were refused, and so many events were made. */
  ghost predicate CountsTheRun(stats: P.Stats, config: RiskConfig, commands: seq<Command>) {
    var start := Fresh(P.BookSpec.Baseline);
    && stats.processed == |commands| && stats.accepted == |AcceptedOf(start, config, commands)|
    && stats.accepted + stats.rejected == |commands|
    && stats.events == |EventsOf(SubmitAll(start, config, commands).results)|
  }

  /**
   * Whatever the interleaving of loads, slot accesses and stores and whatever the capacities, a finished
   * pipeline has the records, the engine and the counters of the single-threaded run.
   */
  lemma {:induction false} FinishedIsSequential(s: State, config: RiskConfig, commands: seq<Command>, inCapacity: nat,
                                                outCapacity: nat, turns: seq<Turn>)
    requires Started(s, config, commands, inCapacity, outCapacity)
    requires s.inbound.slots != [] && s.outbound.slots != [] && P.Finished(Run(s, turns).core)
    ensures var u := Run(s, turns).core;
            var run := SubmitAll(Fresh(P.BookSpec.Baseline), config, commands);
            && u.sunk == P.Records(Fresh(P.BookSpec.Baseline), config, commands)
            && u.snapshot == Some(run.engine) && CountsTheRun(u.stats, config, commands)
  {
    hide Started, Run, P.Run, Inv, P.Records, P.Totals, SubmitAll, AcceptedOf, EventsOf, P.Start;
    StartIsOk(s, config, commands, inCapacity, outCapacity);
    var schedule := RunRefines(s, turns);
    P.FinishedIsSequential(config, commands, inCapacity, outCapacity, schedule);
    P.RecordsAreTheGatewayRun(Fresh(P.BookSpec.Baseline), config, commands);
    P.TotalsAreTheRun(Fresh(P.BookSpec.Baseline), config, commands);
  }

  // ---- Progress ------------------------------------------------------------------------------

  lemma {:induction false} RunAppends(s: State, a: seq<Turn>, b: seq<Turn>)
    requires s.inbound.slots != [] && s.outbound.slots != []
    ensures Run(s, a + b) == Run(Run(s, a), b)
    decreases |a|
  {
    hide Step;
    if a == [] {
      assert [] + b == b;
    } else {
      StepKeepsSlots(s, a[0]);
      RunAppends(Step(s, a[0]), a[1..], b);
      assert (a + b)[0] == a[0] && (a + b)[1..] == a[1..] + b;
    }
  }

  lemma {:induction false} StepKeepsSlots(s: State, t: Turn)
    requires s.inbound.slots != [] && s.outbound.slots != []
    ensures Step(s, t).inbound.slots != [] && Step(s, t).outbound.slots != []
  {
    hide Submit, P.Tally;
  }

  /** Left alone, a thread completes its next step of the abstract pipeline, whatever operation it is in. */
  lemma {:induction false} Completes(s: State, t: Turn) returns (turns: seq<Turn>)
    requires Inv(s)
    ensures s.inbound.slots != [] && s.outbound.slots != [] && Inv(Run(s, turns))
    ensures |s.inbound.popped| <= |s.inbound.pushed| && |s.outbound.popped| <= |s.outbound.pushed|
    ensures var u := Run(s, turns);
            && |u.inbound.popped| <= |u.inbound.pushed| && |u.outbound.popped| <= |u.outbound.pushed|
            && Abs(u) == P.Step(Abs(s), t.thread)
    decreases Hidden(s, t.thread)
  {
    hide Inv, Step, Abs, P.Step, Shows, Hidden;
    RingsHold(s);
    StepRefines(s, t);
    RingsHold(Step(s, t));
    if Shows(s, t.thread) {
      turns := [t];
      assert turns[1..] == [];
    } else {
      var rest := Completes(Step(s, t), t);
      turns := [t] + rest;
      assert turns[1..] == rest;
    }
  }

  /** No deadlock at this level either: from every reachable state some schedule runs to completion. */
  lemma {:induction false} CanFinish(s: State, husks: Turn) returns (turns: seq<Turn>)
    requires Inv(s) && |s.inbound.popped| <= |s.inbound.pushed| && |s.outbound.popped| <= |s.outbound.pushed|
    requires P.Inv(Abs(s)) && s.core.inCapacity >= 1 && s.core.outCapacity >= 1
    ensures s.inbound.slots != [] && s.outbound.slots != [] && P.Finished(Run(s, turns).core)
    decreases if s.core.sent <= |s.core.commands| then P.Outstanding(Abs(s)) else 0
  {
    hide Inv, P.Inv, P.Step, P.Outstanding, P.Spins, Run, P.FlagsOk;
    RingsHold(s);
    P.SentInRange(Abs(s)) by { AbstractFlags(Abs(s)); }
    if P.Finished(Abs(s)) {
      turns := [];
      NoTurns(s);
    } else {
      var t := P.SomeThreadCanWork(Abs(s));
      AbstractFlags(Abs(s));
      P.StepKeeps(Abs(s), t);
      AbstractFlags(P.Step(Abs(s), t));
      P.SentInRange(P.Step(Abs(s), t));
      P.WorkOnlyShrinks(Abs(s), t);
      P.StepKeepsConfig(Abs(s), t);
      var first := Completes(s, husks.(thread := t));
      var rest := CanFinish(Run(s, first), husks);
      turns := first + rest;
      RunAppends(s, first, rest);
    }
  }

  /** However far a run has got, the pipeline can still run to completion. */
  lemma {:induction false} NeverStuck(s: State, config: RiskConfig, commands: seq<Command>, inCapacity: nat,
                                      outCapacity: nat,
                                      turns: seq<Turn>, husks: Turn) returns (more: seq<Turn>)
    requires Started(s, config, commands, inCapacity, outCapacity)
    ensures s.inbound.slots != [] && s.outbound.slots != [] && P.Finished(Run(s, turns + more).core)
  {
    hide Run, P.Run, Inv, P.Inv, P.Start;
    StartIsOk(s, config, commands, inCapacity, outCapacity);
    RingsHold(s);
    CapacitiesAreReal(s, config, commands, inCapacity, outCapacity);
    var schedule := RunRefines(s, turns);
    P.StartKeeps(config, commands, inCapacity, outCapacity);
    P.RunKeeps(Abs(s), schedule);
    P.ConfigKept(Abs(s), schedule);
    more := CanFinish(Run(s, turns), husks);
    RunAppends(s, turns, more);
  }

  lemma {:induction false} CapacitiesAreReal(s: State, config: RiskConfig, commands: seq<Command>, inCapacity: nat,
                                             outCapacity: nat)
    requires Started(s, config, commands, inCapacity, outCapacity)
    ensures s.core.inCapacity == inCapacity >= 1 && s.core.outCapacity == outCapacity >= 1
  {
  }

  lemma {:induction false} AbstractFlags(s: P.State)
    requires P.Inv(s)
    ensures P.FlagsOk(s)
  {
  }

  lemma {:induction false} NoTurns(s: State)
    requires s.inbound.slots != [] && s.outbound.slots != []
    ensures Run(s, []) == s
  {
  }
}
