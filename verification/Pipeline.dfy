/**
 * The three-thread pipeline: input thread, engine thread and output thread around two bounded
 * lossless queues. Each thread's next step is determined by its own position and the shared state,
 * so an interleaving is just a sequence of thread names. A queue operation is one atomic step; the
 * ring is proved to behave that way.
 */
module Pipeline {
  import opened Types
  import BookSpec
  import opened Engine
  import opened Gateway

  /** What the engine thread hands downstream for one command. */
  datatype Processed = Processed(command: Command, result: GatewayResult)

  datatype Thread = InputThread | EngineThread | OutputThread

  /** `draining` marks the final loop after the done flag was seen. */
  datatype EnginePos =
    | EPoll
    | ECheck
    | EDrain
    | EGot(command: Command, draining: bool)
    | EPush(record: Processed, draining: bool)
    | EFinish
    | EDone

  datatype OutputPos =
    | OPoll
    | OCheck
    | ODrain
    | OGot(record: Processed, draining: bool)
    | ODone

  datatype Stats = Stats(processed: nat, accepted: nat, rejected: nat, events: nat)

  datatype State = State(
    config: RiskConfig, commands: seq<Command>, inCapacity: nat, outCapacity: nat,
    sent: nat, inputDone: bool, inbound: seq<Command>,
    enginePos: EnginePos, engine: Engine, stats: Stats, snapshot: Option<Engine>, engineDone: bool,
    outbound: seq<Processed>, outputPos: OutputPos, sunk: seq<Processed>)

  function InputStep(s: State): State {
    if s.sent < |s.commands| then
      if |s.inbound| < s.inCapacity then
        s.(inbound := s.inbound + [s.commands[s.sent]], sent := s.sent + 1)
      else s  // spin on a full queue
    else s.(inputDone := true)
  }

  function Tally(stats: Stats, r: GatewayResult): Stats {
    Stats(stats.processed + 1, if r.accepted then stats.accepted + 1 else stats.accepted,
          if r.accepted then stats.rejected else stats.rejected + 1, stats.events + |r.events|)
  }

  function EngineStep(s: State): State {
    match s.enginePos
    case EPoll =>
      if s.inbound != [] then s.(inbound := s.inbound[1..], enginePos := EGot(s.inbound[0], false))
      else s.(enginePos := ECheck)
    case ECheck => s.(enginePos := if s.inputDone then EDrain else EPoll)
    case EDrain =>
      if s.inbound != [] then s.(inbound := s.inbound[1..], enginePos := EGot(s.inbound[0], true))
      else s.(enginePos := EFinish)
    case EGot(c, draining) =>
      var r := Submit(s.engine, s.config, c);
      s.(engine := r.engine, stats := Tally(s.stats, r.result), enginePos := EPush(Processed(c, r.result), draining))
    case EPush(p, draining) =>
      if |s.outbound| < s.outCapacity then
        s.(outbound := s.outbound + [p], enginePos := if draining then EDrain else EPoll)
      else s  // spin on a full queue
    case EFinish => s.(snapshot := Some(s.engine), engineDone := true, enginePos := EDone)
    case EDone => s
  }

  function OutputStep(s: State): State {
    match s.outputPos
    case OPoll =>
      if s.outbound != [] then s.(outbound := s.outbound[1..], outputPos := OGot(s.outbound[0], false))
      else s.(outputPos := OCheck)
    case OCheck => s.(outputPos := if s.engineDone then ODrain else OPoll)
    case ODrain =>
      if s.outbound != [] then s.(outbound := s.outbound[1..], outputPos := OGot(s.outbound[0], true))
      else s.(outputPos := ODone)
    case OGot(p, draining) => s.(sunk := s.sunk + [p], outputPos := if draining then ODrain else OPoll)
    case ODone => s
  }

  function Step(s: State, t: Thread): State {
    match t
    case InputThread => InputStep(s)
    case EngineThread => EngineStep(s)
    case OutputThread => OutputStep(s)
  }

  function Run(s: State, schedule: seq<Thread>): State
    decreases |schedule|
  {
    if schedule == [] then s else Run(Step(s, schedule[0]), schedule[1..])
  }

  /** The engine is on the baseline storage, as the engine stage constructs it. */
  function Start(config: RiskConfig, commands: seq<Command>, inCapacity: nat, outCapacity: nat): State {
    State(config, commands, inCapacity, outCapacity, 0, false, [], EPoll, Fresh(BookSpec.Baseline), Stats(0, 0, 0, 0),
          None,
          false, [], OPoll, [])
  }

  predicate Finished(s: State) {
    s.inputDone && s.enginePos.EDone? && s.outputPos.ODone?
  }

  // ---- The single-threaded reference ---------------------------------------------------------

  /** The records a single thread produces for `cs`. */
  function Records(e: Engine, config: RiskConfig, cs: seq<Command>): seq<Processed>
    decreases |cs|
  {
    if cs == [] then []
    else
      var r := Submit(e, config, cs[0]);
      [Processed(cs[0], r.result)] + Records(r.engine, config, cs[1..])
  }

  function EngineAfter(e: Engine, config: RiskConfig, cs: seq<Command>): Engine
    decreases |cs|
  {
    if cs == [] then e else EngineAfter(Submit(e, config, cs[0]).engine, config, cs[1..])
  }

  function Totals(records: seq<Processed>): Stats {
    if records == [] then Stats(0, 0, 0, 0)
    else Tally(Totals(records[..|records| - 1]), records[|records| - 1].result)
  }

  lemma {:induction false} AppliedOneMore(e: Engine, config: RiskConfig, cs: seq<Command>, n: nat)
    requires n < |cs|
    ensures var r := Submit(EngineAfter(e, config, cs[..n]), config, cs[n]);
            && EngineAfter(e, config, cs[..n + 1]) == r.engine
            && Records(e, config, cs[..n + 1]) == Records(e, config, cs[..n]) + [Processed(cs[n], r.result)]
    decreases n
  {
    hide Submit;
    if n == 0 {
      assert cs[..1][1..] == [];
    } else {
      var next := Submit(e, config, cs[0]).engine;
      AppliedOneMore(next, config, cs[1..], n - 1);
      assert cs[..n + 1][1..] == cs[1..][..n] && cs[..n][1..] == cs[1..][..n - 1];
      assert cs[..n + 1][0] == cs[0] && cs[..n][0] == cs[0];
    }
  }

  // ---- The invariant of every interleaving ---------------------------------------------------

  function HeldByEngine(s: State): seq<Command> {
    match s.enginePos
    case EGot(c, _) => [c]
    case _ => []
  }

  function PendingRecord(s: State): seq<Processed> {
    match s.enginePos
    case EPush(p, _) => [p]
    case _ => []
  }

  function HeldByOutput(s: State): seq<Processed> {
    match s.outputPos
    case OGot(p, _) => [p]
    case _ => []
  }

  /** Records in engine order: already sunk, held by the output thread, queued, and still to be queued. */
  function Emitted(s: State): seq<Processed> {
    s.sunk + HeldByOutput(s) + s.outbound + PendingRecord(s)
  }

  /** Commands the engine has not applied yet: popped but unapplied, queued, unsent. */
  function Ahead(s: State): seq<Command>
    requires s.sent <= |s.commands|
  {
    HeldByEngine(s) + s.inbound + s.commands[s.sent..]
  }

  ghost predicate Draining(s: State) {
    match s.enginePos
    case EDrain => true
    case EGot(_, d) => d
    case EPush(_, d) => d
    case EFinish => true
    case EDone => true
    case _ => false
  }

  ghost predicate OutputDraining(s: State) {
    match s.outputPos
    case ODrain => true
    case OGot(_, d) => d
    case ODone => true
    case _ => false
  }

  ghost predicate FlagsOk(s: State) {
    && s.sent <= |s.commands|
    && (s.inputDone ==> s.sent == |s.commands|)
    && (Draining(s) ==> s.inputDone)
    && (s.enginePos.EFinish? || s.enginePos.EDone? ==> s.inbound == [])
    && (s.engineDone <==> s.enginePos.EDone?)
    && (s.engineDone ==> s.snapshot == Some(s.engine))
    && (OutputDraining(s) ==> s.engineDone)
    && (s.outputPos.ODone? ==> s.outbound == [])
    && |s.inbound| <= s.inCapacity && |s.outbound| <= s.outCapacity
  }

  /** Everything emitted is what a single thread emits for the applied prefix; everything else is still ahead. */
  ghost predicate FlowOk(s: State)
    requires s.sent <= |s.commands|
  {
    var applied := |Emitted(s)|;
    && applied <= |s.commands|
    && s.commands[applied..] == Ahead(s)
    && Emitted(s) == Records(Fresh(BookSpec.Baseline), s.config, s.commands[..applied])
    && s.engine == EngineAfter(Fresh(BookSpec.Baseline), s.config, s.commands[..applied])
    && s.stats == Totals(Emitted(s))
  }

  ghost predicate Inv(s: State) {
    FlagsOk(s) && FlowOk(s)
  }

  lemma {:induction false} StartKeeps(config: RiskConfig, commands: seq<Command>, inCapacity: nat, outCapacity: nat)
    ensures Inv(Start(config, commands, inCapacity, outCapacity))
  {
    assert commands[0..] == commands && commands[..0] == [];
  }

  lemma {:induction false} FlowSame(s: State, u: State)
    requires s.sent <= |s.commands| && FlowOk(s) && u.sent <= |u.commands|
    requires u.config == s.config && u.commands == s.commands && u.engine == s.engine && u.stats == s.stats
    requires Emitted(u) == Emitted(s) && Ahead(u) == Ahead(s)
    ensures FlowOk(u)
  {
    hide Records, EngineAfter, Totals;
  }

  lemma {:induction false} InputKeeps(s: State)
    requires Inv(s)
    ensures Inv(InputStep(s))
  {
    hide FlowOk;
    var u := InputStep(s);
    if s.sent < |s.commands| && |s.inbound| < s.inCapacity {
      var c := s.commands[s.sent];
      assert s.commands[s.sent..] == [c] + s.commands[s.sent + 1..];
      assert Ahead(u) == Ahead(s);
    }
    FlowSame(s, u);
  }

  lemma {:induction false} PopMoves<T>(a: seq<T>, b: seq<T>, c: seq<T>)
    requires b != []
    ensures a + [] + b + c == a + [b[0]] + b[1..] + c
    ensures [] + b + c == [b[0]] + b[1..] + c
  {
    assert b == [b[0]] + b[1..];
  }

  lemma {:induction false} PushMoves<T>(a: seq<T>, b: seq<T>, x: T)
    ensures a + b + [x] == a + (b + [x]) + []
  {
  }

  lemma {:induction false} OutputFlags(s: State)
    requires FlagsOk(s)
    ensures FlagsOk(OutputStep(s))
  {
  }

  lemma {:induction false} OutputMoves(s: State)
    requires s.sent <= |s.commands|
    ensures Emitted(OutputStep(s)) == Emitted(s) && Ahead(OutputStep(s)) == Ahead(s)
  {
    hide Emitted, Ahead;
    var u := OutputStep(s);
    SameAhead(s, u);
    if s.outputPos.OGot? {
      Sunk(s, u, s.outputPos.record);
    } else if s.outbound != [] && (s.outputPos.OPoll? || s.outputPos.ODrain?) {
      Taken(s, u);
    } else {
      SameEmitted(s, u);
    }
  }

  lemma {:induction false} Sunk(s: State, u: State, p: Processed)
    requires u.sunk == s.sunk + [p] && HeldByOutput(s) == [p] && HeldByOutput(u) == []
    requires u.outbound == s.outbound && PendingRecord(u) == PendingRecord(s)
    ensures Emitted(u) == Emitted(s)
  {
    assert s.sunk + [p] + [] == s.sunk + [p];
  }

  lemma {:induction false} Taken(s: State, u: State)
    requires u.sunk == s.sunk && HeldByOutput(s) == []
    requires s.outbound != [] && u.outbound == s.outbound[1..] && HeldByOutput(u) == [s.outbound[0]]
    requires PendingRecord(u) == PendingRecord(s)
    ensures Emitted(u) == Emitted(s)
  {
    PopMoves(s.sunk, s.outbound, PendingRecord(s));
  }

  lemma {:induction false} OutputKeeps(s: State)
    requires Inv(s)
    ensures Inv(OutputStep(s))
  {
    hide FlowOk, FlagsOk, Emitted, Ahead;
    SentInRange(s);
    OutputFlags(s);
    OutputMoves(s);
    FlowSame(s, OutputStep(s));
  }

  lemma {:induction false} EngineFlags(s: State)
    requires FlagsOk(s)
    ensures FlagsOk(EngineStep(s))
  {
    hide Submit, Tally;
  }

  lemma {:induction false} EngineKeeps(s: State)
    requires Inv(s)
    ensures Inv(EngineStep(s))
  {
    hide FlowOk, FlagsOk, Emitted, Ahead, Submit;
    EngineFlags(s);
    SentInRange(s);
    if s.enginePos.EGot? {
      ApplyKeepsFlow(s, s.enginePos.command, s.enginePos.draining);
    } else {
      HandOver(s);
      FlowSame(s, EngineStep(s));
    }
  }

  lemma {:induction false} SentInRange(s: State)
    requires FlagsOk(s)
    ensures s.sent <= |s.commands|
  {
  }

  /** Apart from applying a command, an engine step only moves things along. */
  lemma {:induction false} HandOver(s: State)
    requires s.sent <= |s.commands| && !s.enginePos.EGot?
    ensures Emitted(EngineStep(s)) == Emitted(s) && Ahead(EngineStep(s)) == Ahead(s)
  {
    hide Emitted, Ahead, Submit, Tally;
    var u := EngineStep(s);
    if s.enginePos.EPush? && |s.outbound| < s.outCapacity {
      EmittedMoves(s, u, s.enginePos.record);
      SameAhead(s, u);
    } else if s.inbound != [] && (s.enginePos.EPoll? || s.enginePos.EDrain?) {
      AheadMoves(s, u);
      SameEmitted(s, u);
    } else {
      SameAhead(s, u);
      SameEmitted(s, u);
    }
  }

  lemma {:induction false} EmittedMoves(s: State, u: State, p: Processed)
    requires u.sunk == s.sunk && HeldByOutput(u) == HeldByOutput(s)
    requires u.outbound == s.outbound + [p] && PendingRecord(s) == [p] && PendingRecord(u) == []
    ensures Emitted(u) == Emitted(s)
  {
    PushMoves(s.sunk + HeldByOutput(s), s.outbound, p);
  }

  lemma {:induction false} SameEmitted(s: State, u: State)
    requires u.sunk == s.sunk && HeldByOutput(u) == HeldByOutput(s) && u.outbound == s.outbound
    requires PendingRecord(u) == PendingRecord(s)
    ensures Emitted(u) == Emitted(s)
  {
  }

  lemma {:induction false} AheadMoves(s: State, u: State)
    requires s.sent <= |s.commands| && u.commands == s.commands && u.sent == s.sent
    requires s.inbound != [] && u.inbound == s.inbound[1..] && HeldByEngine(s) == []
             && HeldByEngine(u) == [s.inbound[0]]
    ensures Ahead(u) == Ahead(s)
  {
    PopMoves([], s.inbound, s.commands[s.sent..]);
  }

  lemma {:induction false} SameAhead(s: State, u: State)
    requires s.sent <= |s.commands| && u.commands == s.commands && u.sent == s.sent
    requires u.inbound == s.inbound && HeldByEngine(u) == HeldByEngine(s)
    ensures Ahead(u) == Ahead(s)
  {
  }

  lemma {:induction false} EmittedGrows(s: State, u: State, p: Processed)
    requires u.sunk == s.sunk && HeldByOutput(u) == HeldByOutput(s) && u.outbound == s.outbound
    requires PendingRecord(s) == [] && PendingRecord(u) == [p]
    ensures Emitted(u) == Emitted(s) + [p]
  {
    var all := s.sunk + HeldByOutput(s) + s.outbound;
    assert all + [] == all;
  }

  lemma {:induction false} AheadShrinks(s: State, u: State, c: Command)
    requires s.sent <= |s.commands| && u.commands == s.commands && u.sent == s.sent
    requires u.inbound == s.inbound && HeldByEngine(s) == [c] && HeldByEngine(u) == []
    ensures Ahead(s) == [c] + Ahead(u)
  {
    assert [] + s.inbound + s.commands[s.sent..] == s.inbound + s.commands[s.sent..];
  }

  lemma {:induction false} ApplyKeepsFlow(s: State, c: Command, d: bool)
    requires s.sent <= |s.commands| && FlowOk(s) && s.enginePos == EGot(c, d)
    ensures FlowOk(EngineStep(s))
  {
    hide Records, EngineAfter, Submit, Tally, Emitted, Ahead;
    var u, n := EngineStep(s), |Emitted(s)|;
    var p := Processed(c, Submit(s.engine, s.config, c).result);
    EmittedGrows(s, u, p);
    AheadShrinks(s, u, c);
    assert s.commands[n..][0] == c;
    AppliedOneMore(Fresh(BookSpec.Baseline), s.config, s.commands, n);
    assert s.commands[n + 1..] == s.commands[n..][1..];
    assert (Emitted(s) + [p])[..n] == Emitted(s);
  }

  lemma {:induction false} StepKeeps(s: State, t: Thread)
    requires Inv(s)
    ensures Inv(Step(s, t))
  {
    hide Inv, InputStep, EngineStep, OutputStep;
    match t
    case InputThread => InputKeeps(s);
    case EngineThread => EngineKeeps(s);
    case OutputThread => OutputKeeps(s);
  }

  lemma {:induction false} RunKeeps(s: State, schedule: seq<Thread>)
    requires Inv(s)
    ensures Inv(Run(s, schedule))
    decreases |schedule|
  {
    hide Inv, Step;
    if schedule != [] {
      StepKeeps(s, schedule[0]);
      RunKeeps(Step(s, schedule[0]), schedule[1..]);
    }
  }

  // ---- The result does not depend on the schedule --------------------------------------------

  function CommandsOf(records: seq<Processed>): seq<Command> {
    seq(|records|, i requires 0 <= i < |records| => records[i].command)
  }

  lemma {:induction false} RecordsKeepCommands(e: Engine, config: RiskConfig, cs: seq<Command>)
    ensures CommandsOf(Records(e, config, cs)) == cs
    decreases |cs|
  {
    hide Submit;
    if cs != [] {
      var r := Submit(e, config, cs[0]);
      RecordsKeepCommands(r.engine, config, cs[1..]);
      var rest := Records(r.engine, config, cs[1..]);
      assert CommandsOf([Processed(cs[0], r.result)] + rest) == [cs[0]] + CommandsOf(rest);
    }
  }

  /** Nothing is lost, duplicated or reordered at any moment of any run. */
  lemma {:induction false} NothingIsLost(config: RiskConfig, commands: seq<Command>, inCapacity: nat, outCapacity: nat,
                                         schedule: seq<Thread>)
    ensures var s := Run(Start(config, commands, inCapacity, outCapacity), schedule);
            s.sent <= |s.commands| && CommandsOf(Emitted(s)) + Ahead(s) == commands
  {
    hide Start, Emitted, Ahead, Records, Step;
    var s := Run(Start(config, commands, inCapacity, outCapacity), schedule);
    StartKeeps(config, commands, inCapacity, outCapacity);
    RunKeeps(Start(config, commands, inCapacity, outCapacity), schedule);
    ConfigKept(Start(config, commands, inCapacity, outCapacity), schedule);
    StartIs(config, commands, inCapacity, outCapacity);
    var n := |Emitted(s)|;
    RecordsKeepCommands(Fresh(BookSpec.Baseline), s.config, s.commands[..n]);
    assert s.commands == s.commands[..n] + s.commands[n..];
  }

  lemma {:induction false} StartIs(config: RiskConfig, commands: seq<Command>, inCapacity: nat, outCapacity: nat)
    ensures var s := Start(config, commands, inCapacity, outCapacity);
            s.config == config && s.commands == commands && s.inCapacity == inCapacity && s.outCapacity == outCapacity
  {
  }

  lemma {:induction false} StepKeepsConfig(s: State, t: Thread)
    ensures var u := Step(s, t);
            u.config == s.config && u.commands == s.commands && u.inCapacity == s.inCapacity
            && u.outCapacity == s.outCapacity
  {
    hide Submit, Tally;
  }

  lemma {:induction false} ConfigKept(s: State, schedule: seq<Thread>)
    ensures var u := Run(s, schedule);
            u.config == s.config && u.commands == s.commands && u.inCapacity == s.inCapacity
            && u.outCapacity == s.outCapacity
    decreases |schedule|
  {
    hide Step;
    if schedule != [] {
      StepKeepsConfig(s, schedule[0]);
      ConfigKept(Step(s, schedule[0]), schedule[1..]);
    }
  }

  /** Whatever the interleaving and the capacities, a finished run is the single-threaded run. */
  lemma {:induction false} FinishedIsSequential(config: RiskConfig, commands: seq<Command>, inCapacity: nat,
                                                outCapacity: nat,
                                                schedule: seq<Thread>)
    requires Finished(Run(Start(config, commands, inCapacity, outCapacity), schedule))
    ensures var s := Run(Start(config, commands, inCapacity, outCapacity), schedule);
            && s.sunk == Records(Fresh(BookSpec.Baseline), config, commands)
            && s.snapshot == Some(EngineAfter(Fresh(BookSpec.Baseline), config, commands))
            && s.stats == Totals(s.sunk) && s.stats.processed == |commands|
  {
    hide Start, Records, EngineAfter, Step, Totals;
    var s := Run(Start(config, commands, inCapacity, outCapacity), schedule);
    StartKeeps(config, commands, inCapacity, outCapacity);
    RunKeeps(Start(config, commands, inCapacity, outCapacity), schedule);
    ConfigKept(Start(config, commands, inCapacity, outCapacity), schedule);
    StartIs(config, commands, inCapacity, outCapacity);
    assert Emitted(s) == s.sunk;
    assert Ahead(s) == [];
    assert s.commands[..|s.commands|] == s.commands;
    TotalsCount(s.sunk);
  }

  lemma {:induction false} TotalsCount(records: seq<Processed>)
    ensures var t := Totals(records); t.processed == |records| && t.accepted + t.rejected == |records|
    decreases |records|
  {
    if records != [] {
      TotalsCount(records[..|records| - 1]);
    }
  }

  lemma {:induction false} TotalsFromFront(r: Processed, rest: seq<Processed>)
    ensures var t := Totals(rest);
            Totals([r] + rest)
            == Stats(t.processed + 1, t.accepted + (if r.result.accepted then 1 else 0),
                     t.rejected + (if r.result.accepted then 0 else 1), t.events + |r.result.events|)
    decreases |rest|
  {
    var all := [r] + rest;
    if rest == [] {
      assert all[..0] == [];
    } else {
      var n := |rest| - 1;
      TotalsFromFront(r, rest[..n]);
      assert all[..|all| - 1] == [r] + rest[..n] && all[|all| - 1] == rest[n];
    }
  }

  /** The counters say how many commands came, how many were accepted and refused, and how many events were made. */
  lemma {:induction false} TotalsAreTheRun(e: Engine, config: RiskConfig, cs: seq<Command>)
    ensures var n := |AcceptedOf(e, config, cs)|;
            n <= |cs|
            && Totals(Records(e, config, cs))
               == Stats(|cs|, n, |cs| - n, |EventsOf(SubmitAll(e, config, cs).results)|)
    decreases |cs|
  {
    hide Submit, Totals;
    if cs == [] {
      NoTotals();
    } else {
      var r := Submit(e, config, cs[0]);
      TotalsAreTheRun(r.engine, config, cs[1..]);
      TotalsFromFront(Processed(cs[0], r.result), Records(r.engine, config, cs[1..]));
      assert SubmitAll(e, config, cs).results[1..] == SubmitAll(r.engine, config, cs[1..]).results;
    }
  }

  lemma {:induction false} NoTotals()
    ensures Totals([]) == Stats(0, 0, 0, 0)
  {
  }

  /** The reference is the gateway run of the recorded stream. */
  lemma {:induction false} RecordsAreTheGatewayRun(e: Engine, config: RiskConfig, cs: seq<Command>)
    ensures var run := SubmitAll(e, config, cs);
            && EngineAfter(e, config, cs) == run.engine
            && |run.results| == |cs| && |Records(e, config, cs)| == |cs|
            && forall i :: 0 <= i < |cs| ==> Records(e, config, cs)[i] == Processed(cs[i], run.results[i])
    decreases |cs|
  {
    hide Submit;
    if cs != [] {
      RecordsAreTheGatewayRun(Submit(e, config, cs[0]).engine, config, cs[1..]);
    }
  }

  // ---- Progress ------------------------------------------------------------------------------

  function EngineRank(s: State): nat {
    match s.enginePos
    case EPoll => 4
    case ECheck => if s.inputDone then 3 else if s.inbound != [] then 5 else 4
    case EDrain => 2
    case EGot(_, d) => if d then 2 else 4
    case EPush(_, d) => if d then 2 else 4
    case EFinish => 1
    case EDone => 0
  }

  function OutputRank(s: State): nat {
    match s.outputPos
    case OPoll => 4
    case OCheck => if s.engineDone then 3 else if s.outbound != [] then 5 else 4
    case ODrain => 2
    case OGot(_, d) => if d then 2 else 4
    case ODone => 0
  }

  /** Work still to be done: how far each command has yet to travel, and what each thread has yet to notice. */
  function Outstanding(s: State): nat
    requires s.sent <= |s.commands|
  {
    18 * (|s.commands| - s.sent) + 15 * |s.inbound|
    + (if s.enginePos.EGot? then 12 else if s.enginePos.EPush? then 9 else 0)
    + 6 * |s.outbound| + (if s.outputPos.OGot? then 3 else 0)
    + EngineRank(s) + OutputRank(s) + (if s.inputDone then 0 else 1)
  }

  /** A step that only waits: a push onto a full queue, an empty poll, a flag that is not up, a finished thread. */
  predicate Spins(s: State, t: Thread) {
    match t
    case InputThread => s.inputDone || (s.sent < |s.commands| && |s.inbound| >= s.inCapacity)
    case EngineThread =>
      || s.enginePos.EDone?
      || ((s.enginePos.EPoll? || s.enginePos.ECheck?) && s.inbound == [] && !s.inputDone)
      || (s.enginePos.EPush? && |s.outbound| >= s.outCapacity)
    case OutputThread =>
      || s.outputPos.ODone?
      || ((s.outputPos.OPoll? || s.outputPos.OCheck?) && s.outbound == [] && !s.engineDone)
  }

  /** Waiting leaves the outstanding work alone; every other step reduces it. */
  lemma {:induction false} WorkOnlyShrinks(s: State, t: Thread)
    requires FlagsOk(s) && FlagsOk(Step(s, t))
    ensures if Spins(s, t) then Outstanding(Step(s, t)) == Outstanding(s) else Outstanding(Step(s, t)) < Outstanding(s)
  {
    hide Outstanding, FlagsOk, InputStep, EngineStep, OutputStep;
    match t
    case InputThread => InputShrinks(s);
    case EngineThread => EngineShrinks(s);
    case OutputThread => OutputShrinks(s);
  }

  lemma {:induction false} InputShrinks(s: State)
    requires FlagsOk(s) && FlagsOk(InputStep(s))
    ensures if Spins(s, InputThread) then Outstanding(InputStep(s)) == Outstanding(s)
            else Outstanding(InputStep(s)) < Outstanding(s)
  {
  }

  lemma {:induction false} EngineShrinks(s: State)
    requires FlagsOk(s) && FlagsOk(EngineStep(s))
    ensures if Spins(s, EngineThread) then Outstanding(EngineStep(s)) == Outstanding(s)
            else Outstanding(EngineStep(s)) < Outstanding(s)
  {
    hide Submit, Tally;
  }

  lemma {:induction false} OutputShrinks(s: State)
    requires FlagsOk(s) && FlagsOk(OutputStep(s))
    ensures if Spins(s, OutputThread) then Outstanding(OutputStep(s)) == Outstanding(s)
            else Outstanding(OutputStep(s)) < Outstanding(s)
  {
  }

  /** No deadlock: until all three threads are done, some thread can do more than wait. */
  lemma {:induction false} SomeThreadCanWork(s: State) returns (t: Thread)
    requires Inv(s) && s.inCapacity >= 1 && s.outCapacity >= 1 && !Finished(s)
    ensures !Spins(s, t)
  {
    hide FlowOk;
    if !Spins(s, OutputThread) {
      t := OutputThread;
    } else if !Spins(s, EngineThread) {
      t := EngineThread;
    } else {
      t := InputThread;
    }
  }

  function WorkDone(s: State, schedule: seq<Thread>): nat
    decreases |schedule|
  {
    if schedule == [] then 0
    else (if Spins(s, schedule[0]) then 0 else 1) + WorkDone(Step(s, schedule[0]), schedule[1..])
  }

  /** However long a run waits, the number of its working steps is bounded in advance. */
  lemma {:induction false} WorkIsBounded(s: State, schedule: seq<Thread>)
    requires Inv(s)
    ensures s.sent <= |s.commands| && WorkDone(s, schedule) <= Outstanding(s)
    decreases |schedule|
  {
    hide FlowOk, Step, Spins, Outstanding, FlagsOk;
    SentInRange(s);
    if schedule != [] {
      StepKeeps(s, schedule[0]);
      SentInRange(Step(s, schedule[0]));
      WorkOnlyShrinks(s, schedule[0]);
      WorkIsBounded(Step(s, schedule[0]), schedule[1..]);
    }
  }

  /** From wherever an interleaving has led, the pipeline can still run to completion. */
  lemma {:induction false} CanFinish(s: State) returns (schedule: seq<Thread>)
    requires Inv(s) && s.inCapacity >= 1 && s.outCapacity >= 1
    ensures Finished(Run(s, schedule))
    decreases if s.sent <= |s.commands| then Outstanding(s) else 0
  {
    hide FlowOk, Step, Spins, Outstanding, FlagsOk;
    if Finished(s) {
      schedule := [];
    } else {
      var t := SomeThreadCanWork(s);
      StepKeeps(s, t);
      SentInRange(s);
      SentInRange(Step(s, t));
      WorkOnlyShrinks(s, t);
      StepKeepsConfig(s, t);
      var rest := CanFinish(Step(s, t));
      schedule := [t] + rest;
      assert schedule[1..] == rest;
    }
  }
}
