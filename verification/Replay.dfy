/** Replaying a log of accepted commands into a fresh engine repeats the session that wrote it. */
module Replay {
  import BookSpec
  import opened Engine
  import opened Gateway
  import opened EngineClass
  import opened EventLog
  import opened CommandCodec

  const COMMAND_RECORD := 1

  /** Records of another kind, and payloads that do not decode, are skipped. */
  function Commands(rs: seq<LogRecord>): seq<Command> {
    if rs == [] then []
    else
      (if rs[0].kind == COMMAND_RECORD && Decode(rs[0].payload).Some? then [Decode(rs[0].payload).value] else [])
      + Commands(rs[1..])
  }

  /** `replay`: apply every recorded command straight to the engine and collect the events. */
  method ReplayLog(engine: MatchingEngine, records: seq<LogRecord>) returns (events: seq<Event>)
    requires engine.Valid()
    modifies engine, engine.Repr
    ensures engine.Valid() && fresh(engine.Repr - old(engine.Repr))
    ensures Step(engine.State(), events) == PerformAll(old(engine.State()), Commands(records))
  {
    hide Perform, PerformAll, Commands, MatchingEngine.Valid, MatchingEngine.Books;
    events := [];
    var i := 0;
    ghost var start := engine.State();
    assert records[0..] == records;
    CommandsUnroll(records, 0);
    NothingPerformed(start);
    while i < |records|
      invariant 0 <= i <= |records| && engine.Valid() && fresh(engine.Repr - old(engine.Repr))
      invariant var rest := PerformAll(engine.State(), Commands(records[i..]));
                PerformAll(start, Commands(records)) == Step(rest.engine, events + rest.events)
    {
      CommandsUnroll(records, i);
      var record := records[i];
      if record.kind == COMMAND_RECORD {
        var command := Decode(record.payload);
        if command.Some? {
          FirstPerformed(engine.State(), command.value, Commands(records[i + 1..]));
          var produced := engine.Apply(command.value);
          ghost var rest := PerformAll(engine.State(), Commands(records[i + 1..]));
          assert events + (produced + rest.events) == events + produced + rest.events;
          events := events + produced;
        }
      }
      i := i + 1;
    }
    CommandsUnroll(records, i);
    NothingPerformed(engine.State());
  }

  lemma {:induction false} CommandsUnroll(rs: seq<LogRecord>, i: nat)
    requires i <= |rs|
    ensures i == |rs| ==> Commands(rs[i..]) == []
    ensures i < |rs| ==>
              Commands(rs[i..])
              == (if rs[i].kind == COMMAND_RECORD && Decode(rs[i].payload).Some?
                  then [Decode(rs[i].payload).value] else [])
                 + Commands(rs[i + 1..])
    ensures i < |rs| ==> [] + Commands(rs[i + 1..]) == Commands(rs[i + 1..])
  {
    hide Decode;
    if i < |rs| {
      assert rs[i..][0] == rs[i] && rs[i..][1..] == rs[i + 1..];
    }
  }

  lemma {:induction false} NothingPerformed(e: Engine)
    ensures PerformAll(e, []) == Step(e, []) && forall s: seq<Event> :: s + [] == s && [] + s == s
  {
  }

  lemma {:induction false} FirstPerformed(e: Engine, c: Command, cs: seq<Command>)
    ensures var s := Perform(e, c);
            var rest := PerformAll(s.engine, cs);
            PerformAll(e, [c] + cs) == Step(rest.engine, s.events + rest.events)
  {
    hide Perform;
    assert ([c] + cs)[1..] == cs;
  }

  /** A log of `cs`: one command record each, whatever sequence numbers and timestamps the writer used. */
  ghost predicate Logs(rs: seq<LogRecord>, cs: seq<Command>) {
    && |rs| == |cs|
    && forall i :: 0 <= i < |rs| ==>
         CommandOk(cs[i]) && RecordOk(rs[i]) && rs[i].kind == COMMAND_RECORD && rs[i].payload == Encode(cs[i])
  }

  lemma {:induction false} LoggedCommands(rs: seq<LogRecord>, cs: seq<Command>)
    requires Logs(rs, cs)
    ensures Commands(rs) == cs
    decreases |rs|
  {
    hide Decode, Encode, CommandOk, RecordOk;
    if rs != [] {
      DecodeEncode(cs[0]);
      LoggedCommands(rs[1..], cs[1..]);
      assert [cs[0]] + cs[1..] == cs;
    }
  }

  /**
   * Run any commands through the gateway, log the accepted ones, frame the log, read it back and
   * replay it engine-direct into a fresh engine: same events, same final engine.
   */
  lemma {:induction false} ReplayRepeatsTheSession(st: BookSpec.Storage, config: RiskConfig, cs: seq<Command>,
                                                   rs: seq<LogRecord>)
    requires Logs(rs, AcceptedOf(Fresh(st), config, cs))
    ensures var run := SubmitAll(Fresh(st), config, cs);
            var read := Recovered(Frames(rs));
            && read.tail.CleanTail? && read.records == rs
            && PerformAll(Fresh(st), Commands(read.records)) == Step(run.engine, EventsOf(run.results))
  {
    hide Commands, Frames, SubmitAll, PerformAll, AcceptedOf, Recovered, EventsOf;
    assert AllOk(rs);
    CleanLog(rs);
    LoggedCommands(rs, AcceptedOf(Fresh(st), config, cs));
    AcceptedReplay(Fresh(st), config, cs);
  }

  /** Cut the log anywhere: replaying what recovery finds repeats exactly the commands logged whole before the cut. */
  lemma {:induction false} CrashReplaysAPrefix(st: BookSpec.Storage, cs: seq<Command>, rs: seq<LogRecord>, cut: nat)
    requires Logs(rs, cs) && cut <= |Frames(rs)|
    ensures var n := WholeRecords(rs, cut);
            PerformAll(Fresh(st), Commands(Recovered(Frames(rs)[..cut]).records)) == PerformAll(Fresh(st), cs[..n])
  {
    hide Commands, Frames, PerformAll, Recovered, WholeRecords, Encode, CommandOk, RecordOk;
    assert AllOk(rs);
    CutLog(rs, cut);
    var n := WholeRecords(rs, cut);
    LoggedCommands(rs[..n], cs[..n]);
  }

  /** Such a log exists whenever the accepted symbol names fit a payload. */
  lemma {:induction false} LogExists(cs: seq<Command>) returns (rs: seq<LogRecord>)
    requires forall i :: 0 <= i < |cs| ==>
               CommandOk(cs[i]) && (cs[i].RegisterSymbol? ==> 1 + |cs[i].name| <= MAX_PAYLOAD)
    ensures Logs(rs, cs)
  {
    rs := seq(|cs|, i requires 0 <= i < |cs| => LogRecord(0, COMMAND_RECORD, 0, Encode(cs[i])));
  }

  /** What a log replays: each command record that decodes, in order, and nothing of any other record. */
  lemma {:induction false} CommandsOneByOne(a: seq<LogRecord>, r: LogRecord, b: seq<LogRecord>)
    ensures Commands(a + [r] + b)
            == Commands(a)
               + (if r.kind == 1 && Decode(r.payload).Some? then [Decode(r.payload).value] else [])
               + Commands(b)
  {
    hide Commands, Decode;
    CommandsJoin(a + [r], b);
    CommandsJoin(a, [r]);
    CommandsUnroll([r], 0);
    CommandsUnroll([r], 1);
    assert [r][0..] == [r];
  }

  lemma {:induction false} CommandsJoin(a: seq<LogRecord>, b: seq<LogRecord>)
    ensures Commands(a + b) == Commands(a) + Commands(b)
    decreases |a|
  {
    hide Decode;
    if a == [] {
      assert a + b == b;
    } else {
      assert (a + b)[0] == a[0] && (a + b)[1..] == a[1..] + b;
      CommandsJoin(a[1..], b);
    }
  }
}
