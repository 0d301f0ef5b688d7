/** The session object and its loops, proved against the session's transition functions. */
module SessionClass {
  import opened Types
  import opened Bytes
  import opened Engine
  import opened Gateway
  import opened EngineClass
  import opened Wire
  import S = Session

  /** `append`: refused when it would push the output past the limit. */
  method Append(out: seq<Byte>, bytes: seq<Byte>, limit: S.Limit) returns (grown: seq<Byte>, status: S.Status)
    ensures if S.HasSpace(|out|, |bytes|, limit) then grown == out + bytes && status == S.Fine
            else grown == out && status == S.OutputLimitExceeded
  {
    if !S.HasSpace(|out|, |bytes|, limit) {
      return out, S.OutputLimitExceeded;
    }
    return out + bytes, S.Fine;
  }

  /** `result_wire_size`. */
  method ResultWireSize(r: GatewayResult) returns (size: nat)
    ensures size == S.WireSize(r)
  {
    if !r.accepted {
      return REJECT_FRAME;
    }
    size := ACK_FRAME;
    var i := 0;
    assert r.events[0..] == r.events;
    while i < |r.events|
      invariant 0 <= i <= |r.events| && size <= S.SIZE_MAX
      invariant S.WireSize(r) == S.AddFills(size, r.events[i..])
    {
      assert r.events[i..][0] == r.events[i] && r.events[i..][1..] == r.events[i + 1..];
      if r.events[i].Traded? {
        size := S.AddSaturating(size, FILL_FRAME);
      }
      i := i + 1;
    }
  }

  lemma {:induction false} FillsUnroll(events: seq<Event>, i: nat)
    requires i <= |events|
    ensures i == |events| ==> Fills(events[i..]) == []
    ensures i < |events| ==>
              Fills(events[i..]) == (if events[i].Traded? then Fill(events[i]) else []) + Fills(events[i + 1..])
  {
    hide Fill;
    if i < |events| {
      assert events[i..][0] == events[i] && events[i..][1..] == events[i + 1..];
    }
  }

  /** Once the whole response is known to fit, no single append is refused. */
  lemma {:induction false} ResultFits(used: nat, id: OrderId, r: GatewayResult, limit: S.Limit)
    requires S.LimitOk(limit) && S.HasSpace(used, S.WireSize(r), limit)
    ensures S.HasSpace(used, |Response(id, r)|, limit)
  {
    hide Response, TradeCount, S.AddFills;
    ResponseSize(id, r);
    if r.accepted {
      S.AddFillsIsSaturated(ACK_FRAME, r.events);
      S.SaturationIsHarmless(used, |Response(id, r)|, limit);
    }
  }

  /** `emit_result`: a reject, or an ack and one fill per trade. */
  method EmitResult(id: OrderId, r: GatewayResult, out: seq<Byte>, limit: S.Limit)
    returns (grown: seq<Byte>, status: S.Status)
    requires S.LimitOk(limit)
    ensures if S.HasSpace(|out|, S.WireSize(r), limit) then grown == out + Response(id, r) && status == S.Fine
            else grown == out && status == S.OutputLimitExceeded
  {
    hide Fill, Ack, RejectFrame, Fills, S.WireSize;
    grown := out;
    var size := ResultWireSize(r);
    if !S.HasSpace(|out|, size, limit) {
      return out, S.OutputLimitExceeded;
    }
    ResultFits(|out|, id, r, limit);
    if !r.accepted {
      grown, status := Append(grown, RejectFrame(id, r.reason), limit);
      return;
    }
    var first := if r.events == [] then 0 else r.events[0].seqNo;
    grown, status := Append(grown, Ack(id, first), limit);
    if status != S.Fine {
      assert false;
    }
    var i := 0;
    assert r.events[0..] == r.events;
    assert out + (Ack(id, first) + Fills(r.events)) == out + Ack(id, first) + Fills(r.events);
    while i < |r.events|
      invariant 0 <= i <= |r.events|
      invariant out + Response(id, r) == grown + Fills(r.events[i..])
    {
      FillsUnroll(r.events, i);
      if r.events[i].Traded? {
        ghost var rest := Fills(r.events[i + 1..]);
        assert grown + (Fill(r.events[i]) + rest) == grown + Fill(r.events[i]) + rest;
        grown, status := Append(grown, Fill(r.events[i]), limit);
        if status != S.Fine {
          assert false;
        }
      } else {
        assert [] + Fills(r.events[i + 1..]) == Fills(r.events[i + 1..]);
      }
      i := i + 1;
    }
    FillsUnroll(r.events, i);
    assert grown + [] == grown;
    status := S.Fine;
  }

  class Session {
    const gateway: OrderGateway
    var inbuf: seq<Byte>
    var loggedOut: bool

    ghost predicate Valid()
      reads gateway.engine`books, gateway.engine`Repr, gateway.engine.Repr
    {
      gateway.engine.Valid() && this !in gateway.engine.Repr
    }

    ghost function State(): S.State
      reads this, gateway.engine, gateway.engine.Repr
      requires Valid()
    {
      S.State(gateway.engine.State(), inbuf, loggedOut)
    }

    constructor (gateway: OrderGateway)
      requires gateway.engine.Valid()
      ensures Valid() && this.gateway == gateway && inbuf == [] && !loggedOut
    {
      this.gateway := gateway;
      inbuf, loggedOut := [], false;
    }

    /** Submit an order command and write its result, closing the session if it no longer fits. */
    method SubmitAndEmit(c: Command, id: OrderId, out: seq<Byte>, limit: S.Limit)
      returns (grown: seq<Byte>, status: S.Status)
      requires Valid() && S.LimitOk(limit) && !loggedOut
      modifies this`loggedOut, gateway.engine, gateway.engine.Repr
      ensures Valid() && fresh(gateway.engine.Repr - old(gateway.engine.Repr))
      ensures var a := S.SubmitAndEmit(old(gateway.engine.State()), gateway.config, c, id, |out|, limit);
              && gateway.engine.State() == a.engine && grown == out + a.response && loggedOut == a.close
              && status == a.status
    {
      hide Submit, Response, S.WireSize, MatchingEngine.Valid, MatchingEngine.Books;
      var r := gateway.ApplyCommand(c);
      grown, status := EmitResult(id, r, out, limit);
      if status != S.Fine {
        loggedOut := true;
      }
    }

    method ProcessFrame(frame: seq<Byte>, out: seq<Byte>, limit: S.Limit) returns (grown: seq<Byte>, status: S.Status)
      requires Valid() && |frame| >= HEADER_SIZE && S.LimitOk(limit) && !loggedOut
      modifies this`loggedOut, gateway.engine, gateway.engine.Repr
      ensures Valid() && fresh(gateway.engine.Repr - old(gateway.engine.Repr))
      ensures var a := S.Handle(old(gateway.engine.State()), gateway.config, Decode(frame), |out|, limit);
              && gateway.engine.State() == a.engine && grown == out + a.response && loggedOut == a.close
              && status == a.status
    {
      hide MatchingEngine.Valid, MatchingEngine.Books;
      hide Submit, Response, S.WireSize, S.SubmitAndEmit, PreviewNewOrder, S.Required, Decode, HeartbeatAck;
      grown := out;
      var request := Decode(frame);
      match request
      case OrderRequest(c) =>
        if limit.AtMost? {
          var preview := gateway.PreviewNewOrder(c);
          if !S.HasSpace(|out|, S.Required(preview), limit) {
            loggedOut := true;
            return grown, S.OutputLimitExceeded;
          }
        }
        grown, status := SubmitAndEmit(c, c.id, out, limit);
      case CancelRequest(symbol, id) =>
        if !S.HasSpace(|out|, S.Larger(ACK_FRAME, REJECT_FRAME), limit) {
          loggedOut := true;
          return grown, S.OutputLimitExceeded;
        }
        grown, status := SubmitAndEmit(Command.CancelOrder(symbol, id), id, out, limit);
      case HeartbeatRequest(token) =>
        S.HeartbeatSize(token);
        if !S.HasSpace(|out|, HEARTBEAT_ACK_FRAME, limit) {
          loggedOut := true;
          return grown, S.OutputLimitExceeded;
        }
        grown, status := Append(out, HeartbeatAck(token), limit);
      case Malformed =>
        loggedOut := true;
        return grown, S.Fine;
    }

    /** Buffer the input, answer every complete frame, and erase what was consumed. */
    method OnBytes(input: seq<Byte>, out: seq<Byte>, limit: S.Limit) returns (grown: seq<Byte>, status: S.Status)
      requires Valid() && S.LimitOk(limit)
      modifies this, gateway.engine, gateway.engine.Repr
      ensures Valid() && fresh(gateway.engine.Repr - old(gateway.engine.Repr))
      ensures S.Outcome(State(), grown, status) == S.OnBytes(old(State()), gateway.config, input, out, limit)
    {
      hide S.Handle, Decode, S.Drain, FrontFrame, MatchingEngine.Valid, MatchingEngine.Books;
      grown, status := out, S.Fine;
      if loggedOut {
        return;
      }
      inbuf := inbuf + input;
      ghost var start := State();
      var consumed := 0;
      assert inbuf[0..] == inbuf;
      while !loggedOut
        invariant Valid() && fresh(gateway.engine.Repr - old(gateway.engine.Repr))
        invariant 0 <= consumed <= |inbuf| && inbuf == start.inbuf && status == S.Fine
        invariant S.Drain(start, gateway.config, out, limit)
                  == S.Drain(S.State(gateway.engine.State(), inbuf[consumed..], loggedOut), gateway.config, grown,
                             limit)
        decreases |inbuf| - consumed, if loggedOut then 0 else 1
      {
        var remaining := inbuf[consumed..];
        ghost var now := S.State(gateway.engine.State(), remaining, loggedOut);
        DrainUnrolls(now, gateway.config, grown, limit);
        if FrontFrame(remaining).NeedMore? {
          break;
        }
        if FrontFrame(remaining).BadHeader? {
          loggedOut := true;
          S.ClosedDrains(now.(loggedOut := true), gateway.config, grown, limit);
          break;
        }
        var total := FrontFrame(remaining).size;
        grown, status := ProcessFrame(remaining[..total], grown, limit);
        if status != S.Fine {
          inbuf := inbuf[consumed..];
          return;
        }
        assert remaining[total..] == inbuf[consumed + total..];
        consumed := consumed + total;
      }
      if loggedOut {
        S.ClosedDrains(S.State(gateway.engine.State(), inbuf[consumed..], true), gateway.config, grown, limit);
      }
      inbuf := inbuf[consumed..];
    }
  }

  lemma {:induction false} DrainUnrolls(s: S.State, config: RiskConfig, out: seq<Byte>, limit: S.Limit)
    requires !s.loggedOut
    ensures match FrontFrame(s.inbuf)
            case NeedMore => S.Drain(s, config, out, limit) == S.Outcome(s, out, S.Fine)
            case BadHeader => S.Drain(s, config, out, limit) == S.Outcome(s.(loggedOut := true), out, S.Fine)
            case Whole(size) =>
              && HEADER_SIZE <= size <= |s.inbuf|
              && (var a := S.Handle(s.engine, config, Decode(s.inbuf[..size]), |out|, limit);
                  && S.Drain(s, config, out, limit)
                     == (if a.status == S.OutputLimitExceeded then
                           S.Outcome(S.State(a.engine, s.inbuf, true), out, a.status)
                         else S.Drain(S.State(a.engine, s.inbuf[size..], a.close), config, out + a.response, limit))
                  && (a.status == S.OutputLimitExceeded ==> a.response == [] && a.close))
  {
    hide Submit, Response, S.WireSize, PreviewNewOrder, S.Required, Decode, HeartbeatAck, HeaderOk, BodyLength;
  }
}
