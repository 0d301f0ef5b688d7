/** The client's side of the wire: what it sends is understood, and what it receives says what happened. */
module WireReplies {
  import opened Types
  import opened Bytes
  import opened Engine
  import opened Gateway
  import opened Wire
  import opened FieldWidths

  // ---- Headers -------------------------------------------------------------------------------

  /** A frame as a peer writes it, with the sequence number in its header. */
  function FramedAs(kind: nat, seqNo: nat, body: seq<Byte>): (f: seq<Byte>)
    ensures |f| == HEADER_SIZE + |body|
  {
    Store(kind, 2) + Store(VERSION, 2) + Store(|body|, 4) + Store(seqNo, 8) + body
  }

  lemma {:induction false} HeaderOf(kind: nat, seqNo: nat, body: seq<Byte>, rest: seq<Byte>)
    requires 1 <= kind <= 9 && |body| <= MAX_BODY
    ensures var f := FramedAs(kind, seqNo, body);
            && TypeOf(f) == kind && f[HEADER_SIZE..] == body
            && FrontFrame(f + rest) == Whole(|f|) && (f + rest)[..|f|] == f && (f + rest)[|f|..] == rest
  {
    hide Store, Load;
    var f := FramedAs(kind, seqNo, body);
    var g := f + rest;
    assert f[0..2] == Store(kind, 2) && g[0..2] == Store(kind, 2);
    assert g[2..4] == Store(VERSION, 2);
    assert g[4..8] == Store(|body|, 4);
    assert f[HEADER_SIZE..] == body;
    Widths();
    LoadStore(kind, 2);
    LoadStore(VERSION, 2);
    LoadStore(|body|, 4);
  }

  // ---- Requests ------------------------------------------------------------------------------

  function Flag(b: bool): Byte {
    if b then 1 else 0
  }

  function EncodeOrder(seqNo: nat, id: OrderId, symbol: SymbolId, price: Price, quantity: Quantity, side: Side,
                       market: bool, tif: TimeInForce): seq<Byte>
  {
    FramedAs(1, seqNo, Store(id, 8) + Store(symbol, 4) + Store(Bits64(price), 8) + Store(quantity, 4)
                       + [Flag(side.Sell?), Flag(market), Flag(tif.IOC?)])
  }

  function EncodeCancel(seqNo: nat, id: OrderId, symbol: SymbolId): seq<Byte> {
    FramedAs(2, seqNo, Store(id, 8) + Store(symbol, 4))
  }

  function EncodeHeartbeat(seqNo: nat, token: nat): seq<Byte> {
    FramedAs(5, seqNo, Store(token, 8))
  }

  /** The session reads exactly the order the client wrote, whatever bytes follow. */
  lemma {:induction false} OrderIsUnderstood(seqNo: nat, id: OrderId, symbol: SymbolId, price: Price,
                                             quantity: Quantity, side: Side, market: bool, tif: TimeInForce,
                                             rest: seq<Byte>)
    requires id < TWO64 && symbol < TWO32 && quantity < TWO32 && IsInt64(price)
    ensures var f := EncodeOrder(seqNo, id, symbol, price, quantity, side, market, tif);
            && FrontFrame(f + rest) == Whole(|f|) && (f + rest)[..|f|] == f
            && Decode(f) == OrderRequest(if market then NewMarket(symbol, id, side, quantity)
                                         else NewLimit(symbol, id, side, price, quantity, tif))
  {
    hide Store, Load, FramedAs, FrontFrame, TypeOf;
    var flags := [Flag(side.Sell?), Flag(market), Flag(tif.IOC?)];
    var body := Store(id, 8) + Store(symbol, 4) + Store(Bits64(price), 8) + Store(quantity, 4) + flags;
    HeaderOf(1, seqNo, body, rest);
    assert body[0..8] == Store(id, 8) && body[8..12] == Store(symbol, 4);
    assert body[12..20] == Store(Bits64(price), 8) && body[20..24] == Store(quantity, 4);
    assert body[24] == flags[0] && body[25] == flags[1] && body[26] == flags[2];
    Widths();
    LoadStore(id, 8);
    LoadStore(symbol, 4);
    LoadStore(quantity, 4);
    SignedRoundTrip(price);
  }

  lemma {:induction false} CancelIsUnderstood(seqNo: nat, id: OrderId, symbol: SymbolId, rest: seq<Byte>)
    requires id < TWO64 && symbol < TWO32
    ensures var f := EncodeCancel(seqNo, id, symbol);
            FrontFrame(f + rest) == Whole(|f|) && (f + rest)[..|f|] == f && Decode(f) == CancelRequest(symbol, id)
  {
    hide Store, Load, FramedAs, FrontFrame, TypeOf;
    var body := Store(id, 8) + Store(symbol, 4);
    HeaderOf(2, seqNo, body, rest);
    assert body[0..8] == Store(id, 8) && body[8..12] == Store(symbol, 4);
    Widths();
    LoadStore(id, 8);
    LoadStore(symbol, 4);
  }

  // ---- Replies -------------------------------------------------------------------------------

  datatype Reply =
    | AckReply(id: OrderId, seqNo: nat)
    | RejectReply(id: OrderId, reason: Byte)
    | FillReply(takerId: OrderId, makerId: OrderId, price: Price, quantity: Quantity, seqNo: nat)
    | HeartbeatReply(token: nat)
    | Unreadable

  /** A reply frame as the client decodes it. */
  function DecodeReply(frame: seq<Byte>): Reply
    requires |frame| >= HEADER_SIZE
  {
    var b := frame[HEADER_SIZE..];
    if TypeOf(frame) == 6 && |b| == 8 then HeartbeatReply(Load(b[0..8]))
    else if TypeOf(frame) == 7 && |b| == 16 then AckReply(Load(b[0..8]), Load(b[8..16]))
    else if TypeOf(frame) == 8 && |b| == 9 && b[8] <= 9 then RejectReply(Load(b[0..8]), b[8])
    else if TypeOf(frame) == 9 && |b| == 36 then
      FillReply(Load(b[0..8]), Load(b[8..16]), Signed64(Load(b[16..24])), Load(b[24..28]), Load(b[28..36]))
    else Unreadable
  }

  /** Every complete reply at the front of a byte stream. */
  function Replies(bytes: seq<Byte>): seq<Reply>
    decreases |bytes|
  {
    match FrontFrame(bytes)
    case Whole(size) => [DecodeReply(bytes[..size])] + Replies(bytes[size..])
    case _ => []
  }

  lemma {:induction false} FramedIs(kind: nat, body: seq<Byte>)
    ensures Framed(kind, body) == FramedAs(kind, 0, body)
  {
  }

  lemma {:induction false} RepliesUnroll(bytes: seq<Byte>)
    requires FrontFrame(bytes).Whole?
    ensures var n := FrontFrame(bytes).size; Replies(bytes) == [DecodeReply(bytes[..n])] + Replies(bytes[n..])
  {
    hide DecodeReply, HeaderOk, BodyLength;
  }

  lemma {:induction false} OneReply(kind: nat, body: seq<Byte>, rest: seq<Byte>, reply: Reply)
    requires 1 <= kind <= 9 && |body| <= MAX_BODY && DecodeReply(Framed(kind, body)) == reply
    ensures Replies(Framed(kind, body) + rest) == [reply] + Replies(rest)
  {
    hide DecodeReply, FrontFrame, Replies, Framed, FramedAs;
    FramedIs(kind, body);
    HeaderOf(kind, 0, body, rest);
    RepliesUnroll(Framed(kind, body) + rest);
  }

  lemma {:induction false} AckReads(id: OrderId, seqNo: nat, rest: seq<Byte>)
    requires id < TWO64 && seqNo < TWO64
    ensures Replies(Ack(id, seqNo) + rest) == [AckReply(id, seqNo)] + Replies(rest)
  {
    hide Store, Load, Framed, FramedAs, TypeOf, Replies;
    var body := Store(id, 8) + Store(seqNo, 8);
    FramedIs(7, body);
    HeaderOf(7, 0, body, []);
    assert body[0..8] == Store(id, 8) && body[8..16] == Store(seqNo, 8);
    Widths();
    LoadStore(id, 8);
    LoadStore(seqNo, 8);
    OneReply(7, body, rest, AckReply(id, seqNo));
  }

  lemma {:induction false} RejectReads(id: OrderId, reason: RejectReason, rest: seq<Byte>)
    requires id < TWO64
    ensures Replies(RejectFrame(id, reason) + rest) == [RejectReply(id, ReasonByte(reason))] + Replies(rest)
  {
    hide Store, Load, Framed, FramedAs, TypeOf, Replies;
    var body := Store(id, 8) + [ReasonByte(reason)];
    FramedIs(8, body);
    HeaderOf(8, 0, body, []);
    assert body[0..8] == Store(id, 8) && body[8] == ReasonByte(reason);
    Widths();
    LoadStore(id, 8);
    OneReply(8, body, rest, RejectReply(id, ReasonByte(reason)));
  }

  /** A heartbeat's token is read, and echoed readably. */
  lemma {:induction false} HeartbeatIsEchoed(seqNo: nat, token: nat, rest: seq<Byte>)
    requires token < TWO64
    ensures var f := EncodeHeartbeat(seqNo, token);
            FrontFrame(f + rest) == Whole(|f|) && (f + rest)[..|f|] == f && Decode(f) == HeartbeatRequest(token)
    ensures Replies(HeartbeatAck(token) + rest) == [HeartbeatReply(token)] + Replies(rest)
  {
    hide Store, Load, Framed, FramedAs, TypeOf, Replies, FrontFrame;
    var body := Store(token, 8);
    HeaderOf(5, seqNo, body, rest);
    FramedIs(6, body);
    HeaderOf(6, 0, body, []);
    assert body[0..8] == body;
    Widths();
    LoadStore(token, 8);
    OneReply(6, body, rest, HeartbeatReply(token));
  }

  function FillOf(v: Event): Reply
    requires v.Traded?
  {
    FillReply(v.takerId, v.makerId, v.price, v.quantity, v.seqNo)
  }

  lemma {:induction false} FillReads(v: Event, rest: seq<Byte>)
    requires v.Traded? && EventFits(v) && v.seqNo < TWO64
    ensures Replies(Fill(v) + rest) == [FillOf(v)] + Replies(rest)
  {
    hide Store, Load, Framed, FramedAs, TypeOf, Replies;
    var body := Store(v.takerId, 8) + Store(v.makerId, 8) + Store(Bits64(v.price), 8) + Store(v.quantity, 4)
                + Store(v.seqNo, 8);
    FramedIs(9, body);
    HeaderOf(9, 0, body, []);
    assert body[0..8] == Store(v.takerId, 8) && body[8..16] == Store(v.makerId, 8);
    assert body[16..24] == Store(Bits64(v.price), 8) && body[24..28] == Store(v.quantity, 4)
           && body[28..36] == Store(v.seqNo, 8);
    Widths();
    LoadStore(v.takerId, 8);
    LoadStore(v.makerId, 8);
    LoadStore(v.quantity, 4);
    LoadStore(v.seqNo, 8);
    SignedRoundTrip(v.price);
    OneReply(9, body, rest, FillOf(v));
  }

  ghost predicate EventsFit(events: seq<Event>) {
    forall i :: 0 <= i < |events| ==> EventFits(events[i]) && events[i].seqNo < TWO64
  }

  function FillReplies(events: seq<Event>): seq<Reply> {
    if events == [] then []
    else (if events[0].Traded? then [FillOf(events[0])] else []) + FillReplies(events[1..])
  }

  lemma {:induction false} FillsRead(events: seq<Event>, rest: seq<Byte>)
    requires EventsFit(events)
    ensures Replies(Fills(events) + rest) == FillReplies(events) + Replies(rest)
    decreases |events|
  {
    hide Fill, Replies, EventFits;
    if events == [] {
      assert [] + rest == rest;
      assert [] + Replies(rest) == Replies(rest);
    } else {
      FillsRead(events[1..], rest);
      var more, tail := Fills(events[1..]), FillReplies(events[1..]);
      if events[0].Traded? {
        assert Fill(events[0]) + more + rest == Fill(events[0]) + (more + rest);
        FillReads(events[0], more + rest);
        assert [FillOf(events[0])] + (tail + Replies(rest)) == [FillOf(events[0])] + tail + Replies(rest);
      } else {
        assert [] + more == more && [] + tail == tail;
      }
    }
  }

  /** The replies a result is meant to give: its trades in order behind one ack, or one reject. */
  function ResultReplies(id: OrderId, r: GatewayResult): seq<Reply> {
    if r.accepted then [AckReply(id, if r.events == [] then 0 else r.events[0].seqNo)] + FillReplies(r.events)
    else [RejectReply(id, ReasonByte(r.reason))]
  }

  /** A client that reframes the response learns exactly the verdict, the reason and every trade in order. */
  lemma {:induction false} ResponseSaysWhatHappened(id: OrderId, r: GatewayResult, rest: seq<Byte>)
    requires id < TWO64 && EventsFit(r.events)
    ensures Replies(Response(id, r) + rest) == ResultReplies(id, r) + Replies(rest)
  {
    hide Ack, RejectFrame, Fills, Replies, FillReplies, EventFits;
    if r.accepted {
      var first := if r.events == [] then 0 else r.events[0].seqNo;
      var a, f := Ack(id, first), Fills(r.events);
      assert a + f + rest == a + (f + rest);
      AckReads(id, first, f + rest);
      FillsRead(r.events, rest);
      assert [AckReply(id, first)] + (FillReplies(r.events) + Replies(rest))
          == [AckReply(id, first)] + FillReplies(r.events) + Replies(rest);
    } else {
      RejectReads(id, r.reason, rest);
    }
  }
}
