/**
 * The byte-level session: reframing, dispatch to the gateway, and a limit on buffered output that is
 * checked before any order touches the engine.
 */
module Session {
  import opened Types
  import opened Bytes
  import opened Engine
  import opened Gateway
  import opened Wire

  const SIZE_MAX := 0xFFFF_FFFF_FFFF_FFFF

  /** The largest `size_t` means no limit; every other value is one. */
  datatype Limit = Unlimited | AtMost(bytes: nat)

  datatype Status = Fine | OutputLimitExceeded

  /** The peer's unprocessed bytes and whether it is to be disconnected. */
  datatype State = State(engine: Engine, inbuf: seq<Byte>, loggedOut: bool)

  datatype Outcome = Outcome(state: State, out: seq<Byte>, status: Status)

  // ---- Size arithmetic -----------------------------------------------------------------------

  predicate HasSpace(current: nat, add: nat, limit: Limit) {
    limit.Unlimited? || (current <= limit.bytes && add <= limit.bytes - current)
  }

  function AddSaturating(a: nat, b: nat): nat
    requires a <= SIZE_MAX
  {
    if b > SIZE_MAX - a then SIZE_MAX else a + b
  }

  function MulSaturating(a: nat, b: nat): nat {
    if a != 0 && b > SIZE_MAX / a then SIZE_MAX else a * b
  }

  predicate LimitOk(limit: Limit) {
    limit.AtMost? ==> limit.bytes < SIZE_MAX
  }

  function Saturated(n: nat): nat {
    if n > SIZE_MAX then SIZE_MAX else n
  }

  lemma {:induction false} MulIsSaturated(a: nat, b: nat)
    ensures MulSaturating(a, b) == Saturated(a * b)
  {
    if a != 0 {
      var q, m := SIZE_MAX / a, SIZE_MAX % a;
      assert SIZE_MAX == a * q + m && 0 <= m < a;
      if b <= q {
        MulGrows(a, b, q);
      } else {
        MulGrows(a, q + 1, b);
        assert a * (q + 1) == a * q + a;
      }
    }
  }

  /** Saturation never changes the answer for a real limit. */
  lemma {:induction false} SaturationIsHarmless(current: nat, n: nat, limit: Limit)
    requires LimitOk(limit)
    ensures HasSpace(current, Saturated(n), limit) <==> HasSpace(current, n, limit)
  {
  }

  /** The size of a result as the code adds it up. */
  function WireSize(r: GatewayResult): nat {
    if r.accepted then AddFills(ACK_FRAME, r.events) else REJECT_FRAME
  }

  function AddFills(size: nat, events: seq<Event>): (n: nat)
    requires size <= SIZE_MAX
    ensures n <= SIZE_MAX
    decreases |events|
  {
    if events == [] then size
    else AddFills(if events[0].Traded? then AddSaturating(size, FILL_FRAME) else size, events[1..])
  }

  lemma {:induction false} AddFillsIsSaturated(size: nat, events: seq<Event>)
    requires size <= SIZE_MAX
    ensures AddFills(size, events) == Saturated(size + FILL_FRAME * TradeCount(events))
    decreases |events|
  {
    if events != [] {
      AddFillsIsSaturated(if events[0].Traded? then AddSaturating(size, FILL_FRAME) else size, events[1..]);
    }
  }

  function Required(p: Preview): nat {
    if p.accepted then AddSaturating(ACK_FRAME, MulSaturating(p.fillCount, FILL_FRAME)) else REJECT_FRAME
  }

  /** What is reserved before the order runs is exactly what its response takes. */
  lemma {:induction false} BudgetIsExact(e: Engine, config: RiskConfig, c: Command)
    requires c.NewLimit? || c.NewMarket?
    ensures Required(PreviewNewOrder(e, config, c)) == WireSize(Submit(e, config, c).result)
    ensures WireSize(Submit(e, config, c).result) == Saturated(|Response(c.id, Submit(e, config, c).result)|)
  {
    hide Submit, PreviewNewOrder, Response, TradeCount, AddFills;
    var p, r := PreviewNewOrder(e, config, c), Submit(e, config, c).result;
    PreviewIsExact(e, config, c);
    ResponseSize(c.id, r);
    if p.accepted {
      CountTrades(r.events, p.fillCount);
      AddFillsIsSaturated(ACK_FRAME, r.events);
      MulIsSaturated(p.fillCount, FILL_FRAME);
    }
  }

  // ---- One frame -----------------------------------------------------------------------------

  datatype Answer = Answer(engine: Engine, response: seq<Byte>, close: bool, status: Status)

  /** Submit and emit, closing the session if the response no longer fits. */
  function SubmitAndEmit(e: Engine, config: RiskConfig, c: Command, id: OrderId, used: nat, limit: Limit): Answer {
    var s := Submit(e, config, c);
    if !HasSpace(used, WireSize(s.result), limit) then Answer(s.engine, [], true, OutputLimitExceeded)
    else Answer(s.engine, Response(id, s.result), false, Fine)
  }

  function Larger(a: nat, b: nat): nat {
    if a < b then b else a
  }

  function Handle(e: Engine, config: RiskConfig, r: Request, used: nat, limit: Limit): Answer
    requires r.OrderRequest? ==> r.command.NewLimit? || r.command.NewMarket?
  {
    match r
    case OrderRequest(c) =>
      if limit.AtMost? && !HasSpace(used, Required(PreviewNewOrder(e, config, c)), limit) then
        Answer(e, [], true, OutputLimitExceeded)
      else SubmitAndEmit(e, config, c, c.id, used, limit)
    case CancelRequest(symbol, id) =>
      if !HasSpace(used, Larger(ACK_FRAME, REJECT_FRAME), limit) then
        Answer(e, [], true, OutputLimitExceeded)
      else SubmitAndEmit(e, config, CancelOrder(symbol, id), id, used, limit)
    case HeartbeatRequest(token) =>
      if !HasSpace(used, HEARTBEAT_ACK_FRAME, limit) then Answer(e, [], true, OutputLimitExceeded)
      else Answer(e, HeartbeatAck(token), false, Fine)
    case Malformed => Answer(e, [], true, Fine)
  }

  lemma {:induction false} CancelEvents(e: Engine, config: RiskConfig, symbol: SymbolId, id: OrderId)
    ensures var r := Submit(e, config, CancelOrder(symbol, id)).result;
            r.accepted ==> |r.events| == 1 && r.events[0].Canceled?
  {
  }

  lemma {:induction false} NoTradeNoFill(v: Event)
    requires !v.Traded?
    ensures AddFills(ACK_FRAME, [v]) == ACK_FRAME && TradeCount([v]) == 0
  {
    assert [v][1..] == [];
    assert TradeCount([]) == 0;
  }

  lemma {:induction false} CancelHasNoTrades(e: Engine, config: RiskConfig, symbol: SymbolId, id: OrderId)
    ensures var r := Submit(e, config, CancelOrder(symbol, id)).result;
            WireSize(r) == |Response(id, r)| && WireSize(r) <= ACK_FRAME
  {
    hide Submit, Response, AddFills, TradeCount;
    var r := Submit(e, config, CancelOrder(symbol, id)).result;
    ResponseSize(id, r);
    CancelEvents(e, config, symbol, id);
    if r.accepted {
      assert r.events == [r.events[0]];
      NoTradeNoFill(r.events[0]);
    }
  }

  /** The engine is touched only by frames whose whole response fits; the late overflow branch is dead. */
  lemma {:induction false} HandleIsSafe(e: Engine, config: RiskConfig, r: Request, used: nat, limit: Limit)
    requires (r.OrderRequest? ==> r.command.NewLimit? || r.command.NewMarket?) && LimitOk(limit)
    ensures var a := Handle(e, config, r, used, limit);
            && (a.status == OutputLimitExceeded ==> a.engine == e && a.response == [] && a.close)
            && (a.status == Fine ==> a == Handle(e, config, r, used, Unlimited))
            && (a.status == Fine && limit.AtMost? && used <= limit.bytes ==> used + |a.response| <= limit.bytes)
  {
    hide Submit, PreviewNewOrder, Response, WireSize, Required, HeartbeatAck;
    match r
    case OrderRequest(c) =>
      BudgetIsExact(e, config, c);
      SaturationIsHarmless(used, |Response(c.id, Submit(e, config, c).result)|, limit);
    case CancelRequest(symbol, id) =>
      CancelHasNoTrades(e, config, symbol, id);
    case HeartbeatRequest(token) =>
      HeartbeatSize(token);
    case Malformed =>
  }

  /**
   * Exactly when a limit stops a frame: an order when its own response would not fit, a cancel when an ack
   * would not, a heartbeat when its echo would not. A malformed frame closes the session whatever the limit.
   */
  lemma {:induction false} StopsExactly(e: Engine, config: RiskConfig, r: Request, used: nat, bytes: nat)
    requires (r.OrderRequest? ==> r.command.NewLimit? || r.command.NewMarket?) && bytes < SIZE_MAX
    ensures var a := Handle(e, config, r, used, AtMost(bytes));
            match r
            case OrderRequest(c) =>
              a.status == OutputLimitExceeded <==> used + |Response(c.id, Submit(e, config, c).result)| > bytes
            case CancelRequest(_, _) => a.status == OutputLimitExceeded <==> used + 32 > bytes
            case HeartbeatRequest(_) => a.status == OutputLimitExceeded <==> used + 24 > bytes
            case Malformed => a == Answer(e, [], true, Fine)
  {
    hide Submit, PreviewNewOrder, Response, WireSize, Required, HeartbeatAck;
    match r
    case OrderRequest(c) =>
      BudgetIsExact(e, config, c);
      SaturationIsHarmless(used, |Response(c.id, Submit(e, config, c).result)|, AtMost(bytes));
    case CancelRequest(symbol, id) =>
      CancelHasNoTrades(e, config, symbol, id);
    case HeartbeatRequest(token) =>
    case Malformed =>
  }

  lemma {:induction false} HeartbeatSize(token: nat)
    ensures |HeartbeatAck(token)| == HEARTBEAT_ACK_FRAME
  {
  }

  // ---- The reframing loop --------------------------------------------------------------------

  function Drain(s: State, config: RiskConfig, out: seq<Byte>, limit: Limit): Outcome
    decreases |s.inbuf|
  {
    if s.loggedOut then Outcome(s, out, Fine)
    else
      match FrontFrame(s.inbuf)
      case NeedMore => Outcome(s, out, Fine)
      case BadHeader => Outcome(s.(loggedOut := true), out, Fine)
      case Whole(size) =>
        var a := Handle(s.engine, config, Decode(s.inbuf[..size]), |out|, limit);
        if a.status == OutputLimitExceeded then Outcome(State(a.engine, s.inbuf, true), out, a.status)
        else Drain(State(a.engine, s.inbuf[size..], a.close), config, out + a.response, limit)
  }

  function OnBytes(s: State, config: RiskConfig, input: seq<Byte>, out: seq<Byte>, limit: Limit): Outcome {
    if s.loggedOut then Outcome(s, out, Fine)
    else Drain(s.(inbuf := s.inbuf + input), config, out, limit)
  }

  /** A session within its limit stays within it. */
  lemma {:induction false} NeverOverLimit(s: State, config: RiskConfig, out: seq<Byte>, limit: Limit)
    requires limit.AtMost? && LimitOk(limit) && |out| <= limit.bytes
    ensures |Drain(s, config, out, limit).out| <= limit.bytes
    decreases |s.inbuf|
  {
    hide Handle, Decode, HeaderOk, BodyLength;
    if !s.loggedOut && FrontFrame(s.inbuf).Whole? {
      var size := FrontFrame(s.inbuf).size;
      HandleIsSafe(s.engine, config, Decode(s.inbuf[..size]), |out|, limit);
      var a := Handle(s.engine, config, Decode(s.inbuf[..size]), |out|, limit);
      if a.status == Fine {
        NeverOverLimit(State(a.engine, s.inbuf[size..], a.close), config, out + a.response, limit);
      }
    }
  }

  /**
   * When the limit stops a session, its engine and output are those of an unlimited session that was
   * given exactly the frames consumed so far; the refused frame and all behind it are still buffered.
   */
  lemma {:induction false} StopsBetweenFrames(s: State, config: RiskConfig, out: seq<Byte>, limit: Limit)
    returns (done: seq<Byte>)
    requires LimitOk(limit) && Drain(s, config, out, limit).status == OutputLimitExceeded
    ensures var r := Drain(s, config, out, limit);
            && s.inbuf == done + r.state.inbuf && r.state.loggedOut
            && Drain(s.(inbuf := done), config, out, Unlimited)
               == Outcome(State(r.state.engine, [], false), r.out, Fine)
    decreases |s.inbuf|
  {
    hide Handle, Decode, Drain, FrontFrame;
    StoppedAtFrame(s, config, out, limit);
    var size := FrontFrame(s.inbuf).size;
    var frame := s.inbuf[..size];
    DrainsFrame(s, config, out, limit);
    HandleIsSafe(s.engine, config, Decode(frame), |out|, limit);
    var a := Handle(s.engine, config, Decode(frame), |out|, limit);
    if a.status == OutputLimitExceeded {
      done := [];
      EmptyDrains(s, config, out);
    } else {
      var rest := State(a.engine, s.inbuf[size..], a.close);
      var more := StopsBetweenFrames(rest, config, out + a.response, limit);
      done := frame + more;
      JoinThree(s.inbuf, size, more, Drain(rest, config, out + a.response, limit).state.inbuf);
      FrameStays(s.inbuf, more);
      DrainsFrame(s.(inbuf := done), config, out, Unlimited);
    }
  }

  lemma {:induction false} StoppedAtFrame(s: State, config: RiskConfig, out: seq<Byte>, limit: Limit)
    requires Drain(s, config, out, limit).status == OutputLimitExceeded
    ensures !s.loggedOut && FrontFrame(s.inbuf).Whole?
  {
    hide Handle, Decode, HeaderOk, BodyLength;
  }

  lemma {:induction false} DrainsFrame(s: State, config: RiskConfig, out: seq<Byte>, limit: Limit)
    requires !s.loggedOut && FrontFrame(s.inbuf).Whole?
    ensures var size := FrontFrame(s.inbuf).size;
            var a := Handle(s.engine, config, Decode(s.inbuf[..size]), |out|, limit);
            Drain(s, config, out, limit)
            == if a.status == OutputLimitExceeded then Outcome(State(a.engine, s.inbuf, true), out, a.status)
               else Drain(State(a.engine, s.inbuf[size..], a.close), config, out + a.response, limit)
  {
    hide Handle, Decode, HeaderOk, BodyLength;
  }

  lemma {:induction false} JoinThree<T>(b: seq<T>, size: nat, more: seq<T>, tail: seq<T>)
    requires size <= |b| && b[size..] == more + tail
    ensures b == b[..size] + more + tail && (b[..size] + more)[..size] == b[..size]
            && (b[..size] + more)[size..] == more
  {
    assert b == b[..size] + b[size..];
  }

  lemma {:induction false} EmptyDrains(s: State, config: RiskConfig, out: seq<Byte>)
    requires !s.loggedOut
    ensures Drain(s.(inbuf := []), config, out, Unlimited) == Outcome(State(s.engine, [], false), out, Fine)
  {
  }

  /** A whole frame at the front is the same frame whatever follows it. */
  lemma {:induction false} FrameStays(b: seq<Byte>, tail: seq<Byte>)
    requires FrontFrame(b).Whole?
    ensures FrontFrame(b[..FrontFrame(b).size] + tail) == FrontFrame(b)
  {
    hide Load;
    var size := FrontFrame(b).size;
    var c := b[..size] + tail;
    assert c[0..2] == b[0..2] && c[2..4] == b[2..4] && c[4..8] == b[4..8];
  }

  // ---- Chunking ------------------------------------------------------------------------------

  /** More input does not change how the front of the buffer is read, unless it was incomplete. */
  lemma {:induction false} MoreInput(b: seq<Byte>, more: seq<Byte>)
    ensures FrontFrame(b).BadHeader? ==> FrontFrame(b + more).BadHeader?
    ensures FrontFrame(b).Whole? ==> FrontFrame(b + more) == FrontFrame(b)
  {
    hide Load;
    if |b| >= Wire.HEADER_SIZE {
      var c := b + more;
      assert c[0..2] == b[0..2] && c[2..4] == b[2..4] && c[4..8] == b[4..8];
    }
  }

  /** Output only ever grows, and what is already out does not influence an unlimited session. */
  lemma {:induction false} OutputAppends(s: State, config: RiskConfig, out: seq<Byte>)
    ensures Drain(s, config, out, Unlimited).out == out + Drain(s, config, [], Unlimited).out
    ensures Drain(s, config, out, Unlimited).state == Drain(s, config, [], Unlimited).state
    ensures Drain(s, config, out, Unlimited).status == Fine
    decreases |s.inbuf|
  {
    hide Submit, PreviewNewOrder, Response, WireSize, Required, HeartbeatAck, Decode, HeaderOk, BodyLength;
    if !s.loggedOut && FrontFrame(s.inbuf).Whole? {
      var size := FrontFrame(s.inbuf).size;
      var a := Handle(s.engine, config, Decode(s.inbuf[..size]), |out|, Unlimited);
      var n := State(a.engine, s.inbuf[size..], a.close);
      OutputAppends(n, config, out + a.response);
      OutputAppends(n, config, [] + a.response);
      var rest := Drain(n, config, [], Unlimited).out;
      assert out + a.response + rest == out + (a.response + rest);
      assert [] + a.response + rest == a.response + rest;
    }
  }

  /** What a peer can tell about a session. */
  ghost predicate Same(a: State, b: State) {
    a.engine == b.engine && a.loggedOut == b.loggedOut && (!a.loggedOut ==> a.inbuf == b.inbuf)
  }

  /** Draining, then feeding more, is draining it all at once. */
  lemma {:induction false} DrainInTwo(s: State, config: RiskConfig, out: seq<Byte>, more: seq<Byte>)
    requires !s.loggedOut
    ensures var first := Drain(s, config, out, Unlimited);
            var second := OnBytes(first.state, config, more, first.out, Unlimited);
            var whole := Drain(s.(inbuf := s.inbuf + more), config, out, Unlimited);
            second.out == whole.out && Same(second.state, whole.state)
    decreases |s.inbuf|
  {
    hide Handle, Decode, HeaderOk, BodyLength;
    MoreInput(s.inbuf, more);
    if FrontFrame(s.inbuf).Whole? {
      var size := FrontFrame(s.inbuf).size;
      var all := s.inbuf + more;
      assert all[..size] == s.inbuf[..size] && all[size..] == s.inbuf[size..] + more;
      OutputAppends(s, config, out);
      var a := Handle(s.engine, config, Decode(s.inbuf[..size]), |out|, Unlimited);
      var n := State(a.engine, s.inbuf[size..], a.close);
      if a.close {
        ClosedDrains(n, config, out + a.response, Unlimited);
        ClosedDrains(n.(inbuf := n.inbuf + more), config, out + a.response, Unlimited);
      } else {
        DrainInTwo(n, config, out + a.response, more);
      }
    }
  }

  lemma {:induction false} ClosedDrains(s: State, config: RiskConfig, out: seq<Byte>, limit: Limit)
    requires s.loggedOut
    ensures Drain(s, config, out, limit) == Outcome(s, out, Fine)
  {
  }

  function Feed(s: State, config: RiskConfig, chunks: seq<seq<Byte>>, out: seq<Byte>): Outcome
    decreases |chunks|
  {
    if chunks == [] then Outcome(s, out, Fine)
    else
      var r := OnBytes(s, config, chunks[0], out, Unlimited);
      Feed(r.state, config, chunks[1..], r.out)
  }

  function Joined(chunks: seq<seq<Byte>>): seq<Byte> {
    if chunks == [] then [] else chunks[0] + Joined(chunks[1..])
  }

  /** Any chunking of a byte stream gives the output, engine and logout flag of feeding it whole. */
  lemma {:induction false} ChunkingDoesNotMatter(s: State, config: RiskConfig, chunks: seq<seq<Byte>>, out: seq<Byte>)
    requires !s.loggedOut && FrontFrame(s.inbuf).NeedMore?
    ensures var parts := Feed(s, config, chunks, out);
            var whole := OnBytes(s, config, Joined(chunks), out, Unlimited);
            parts.out == whole.out && Same(parts.state, whole.state)
    decreases |chunks|
  {
    hide Drain, FrontFrame;
    if chunks == [] {
      assert s.inbuf + [] == s.inbuf;
      StillWaiting(s, config, out);
    } else {
      var first := s.(inbuf := s.inbuf + chunks[0]);
      var r := Drain(first, config, out, Unlimited);
      DrainInTwo(first, config, out, Joined(chunks[1..]));
      assert first.inbuf + Joined(chunks[1..]) == s.inbuf + Joined(chunks);
      if r.state.loggedOut {
        LoggedOutStays(r.state, config, chunks[1..], r.out);
      } else {
        DrainedWaits(first, config, out, Unlimited);
        ChunkingDoesNotMatter(r.state, config, chunks[1..], r.out);
      }
    }
  }

  lemma {:induction false} StillWaiting(s: State, config: RiskConfig, out: seq<Byte>)
    requires FrontFrame(s.inbuf).NeedMore?
    ensures Drain(s, config, out, Unlimited) == Outcome(s, out, Fine)
  {
  }

  lemma {:induction false} LoggedOutStays(s: State, config: RiskConfig, chunks: seq<seq<Byte>>, out: seq<Byte>)
    requires s.loggedOut
    ensures Feed(s, config, chunks, out) == Outcome(s, out, Fine)
    decreases |chunks|
  {
    if chunks != [] {
      LoggedOutStays(s, config, chunks[1..], out);
    }
  }

  /** A live session never buffers a complete frame, so its buffer stays below one header and one full body. */
  lemma {:induction false} DrainedWaits(s: State, config: RiskConfig, out: seq<Byte>, limit: Limit)
    ensures var r := Drain(s, config, out, limit).state;
            !r.loggedOut ==> FrontFrame(r.inbuf).NeedMore? && |r.inbuf| < Wire.HEADER_SIZE + MAX_BODY
    decreases |s.inbuf|
  {
    hide Handle, Decode;
    if !s.loggedOut && FrontFrame(s.inbuf).Whole? {
      var size := FrontFrame(s.inbuf).size;
      var a := Handle(s.engine, config, Decode(s.inbuf[..size]), |out|, limit);
      if a.status == Fine {
        DrainedWaits(State(a.engine, s.inbuf[size..], a.close), config, out + a.response, limit);
      }
    }
  }
}
