/** The session's binary frames: header validation, requests in, responses out. */
module Wire {
  import opened Types
  import opened Bytes
  import opened Engine
  import opened Gateway

  const HEADER_SIZE := 16
  const MAX_BODY := 4096
  const VERSION := 1
  const NEW_ORDER_BODY := 27
  const CANCEL_BODY := 12
  const HEARTBEAT_BODY := 8
  const ACK_FRAME := 32
  const REJECT_FRAME := 25
  const FILL_FRAME := 52
  const HEARTBEAT_ACK_FRAME := 24

  function TypeOf(b: seq<Byte>): nat
    requires |b| >= HEADER_SIZE
  {
    Load(b[0..2])
  }

  function BodyLength(b: seq<Byte>): nat
    requires |b| >= HEADER_SIZE
  {
    Load(b[4..8])
  }

  /** Supported version, known message type, body within the cap. */
  predicate HeaderOk(b: seq<Byte>)
    requires |b| >= HEADER_SIZE
  {
    Load(b[2..4]) == VERSION && 1 <= TypeOf(b) <= 9 && BodyLength(b) <= MAX_BODY
  }

  /** What stands at the front of a byte buffer. */
  datatype Framing = NeedMore | BadHeader | Whole(size: nat)

  function FrontFrame(b: seq<Byte>): (f: Framing)
    ensures f.Whole? ==> HEADER_SIZE <= f.size <= |b|
  {
    if |b| < HEADER_SIZE then NeedMore
    else if !HeaderOk(b) then BadHeader
    else if |b| < HEADER_SIZE + BodyLength(b) then NeedMore
    else Whole(HEADER_SIZE + BodyLength(b))
  }

  /** A decoded request; a body that does not fit its type, or an unexpected type, is malformed. */
  datatype Request =
    | OrderRequest(command: Command)
    | CancelRequest(symbol: SymbolId, id: OrderId)
    | HeartbeatRequest(token: nat)
    | Malformed

  function ByteEnum(b: Byte): Option<bool> {
    if b == 0 then Some(false) else if b == 1 then Some(true) else None
  }

  function DecodeNewOrder(body: seq<Byte>): (r: Request)
    ensures r.OrderRequest? ==> r.command.NewLimit? || r.command.NewMarket?
  {
    if |body| != NEW_ORDER_BODY then Malformed
    else
      var side, kind, tif := ByteEnum(body[24]), ByteEnum(body[25]), ByteEnum(body[26]);
      if side.None? || kind.None? || tif.None? then Malformed
      else
        var id, symbol, quantity := Load(body[0..8]), Load(body[8..12]), Load(body[20..24]);
        var s := if side.value then Sell else Buy;
        if kind.value then OrderRequest(NewMarket(symbol, id, s, quantity))
        else OrderRequest(NewLimit(symbol, id, s, Signed64(Load(body[12..20])), quantity,
                                   if tif.value then IOC else GTC))
  }

  function Decode(frame: seq<Byte>): (r: Request)
    requires |frame| >= HEADER_SIZE
    ensures r.OrderRequest? ==> r.command.NewLimit? || r.command.NewMarket?
  {
    var body := frame[HEADER_SIZE..];
    if TypeOf(frame) == 1 then DecodeNewOrder(body)
    else if TypeOf(frame) == 2 then
      if |body| != CANCEL_BODY then Malformed else CancelRequest(Load(body[8..12]), Load(body[0..8]))
    else if TypeOf(frame) == 5 then
      if |body| != HEARTBEAT_BODY then Malformed else HeartbeatRequest(Load(body))
    else Malformed
  }

  // ---- Responses -----------------------------------------------------------------------------

  function Framed(kind: nat, body: seq<Byte>): (f: seq<Byte>)
    ensures |f| == HEADER_SIZE + |body|
  {
    Store(kind, 2) + Store(VERSION, 2) + Store(|body|, 4) + Store(0, 8) + body
  }

  function HeartbeatAck(token: nat): (f: seq<Byte>)
    ensures |f| == HEARTBEAT_ACK_FRAME
  {
    Framed(6, Store(token, 8))
  }

  function Ack(id: OrderId, seqNo: nat): (f: seq<Byte>)
    ensures |f| == ACK_FRAME
  {
    Framed(7, Store(id, 8) + Store(seqNo, 8))
  }

  function ReasonByte(r: RejectReason): Byte {
    match r
    case NoReason => 0
    case UnknownSymbol => 1
    case InvalidPrice => 2
    case InvalidQuantity => 3
    case InvalidSide => 4
    case MaxQuantityExceeded => 5
    case MaxNotionalExceeded => 6
    case DuplicateOrderId => 7
    case UnknownOrder => 8
    case StorageExhausted => 9
  }

  function RejectFrame(id: OrderId, reason: RejectReason): (f: seq<Byte>)
    ensures |f| == REJECT_FRAME
  {
    Framed(8, Store(id, 8) + [ReasonByte(reason)])
  }

  function Fill(v: Event): (f: seq<Byte>)
    requires v.Traded?
    ensures |f| == FILL_FRAME
  {
    Framed(9, Store(v.takerId, 8) + Store(v.makerId, 8) + Store(Bits64(v.price), 8) + Store(v.quantity, 4)
              + Store(v.seqNo, 8))
  }

  /** One fill per trade event, in order. */
  function Fills(events: seq<Event>): seq<Byte> {
    if events == [] then []
    else (if events[0].Traded? then Fill(events[0]) else []) + Fills(events[1..])
  }

  function TradeCount(events: seq<Event>): nat {
    if events == [] then 0 else (if events[0].Traded? then 1 else 0) + TradeCount(events[1..])
  }

  /** A reject, or an ack followed by the fills. */
  function Response(id: OrderId, r: GatewayResult): seq<Byte> {
    if !r.accepted then RejectFrame(id, r.reason)
    else Ack(id, if r.events == [] then 0 else r.events[0].seqNo) + Fills(r.events)
  }

  lemma {:induction false} FillsSize(events: seq<Event>)
    ensures |Fills(events)| == FILL_FRAME * TradeCount(events)
    decreases |events|
  {
    hide Fill;
    if events != [] {
      FillsSize(events[1..]);
    }
  }

  lemma {:induction false} ResponseSize(id: OrderId, r: GatewayResult)
    ensures |Response(id, r)| == if r.accepted then ACK_FRAME + FILL_FRAME * TradeCount(r.events) else REJECT_FRAME
  {
    hide Fills, TradeCount;
    FillsSize(r.events);
  }

  lemma {:induction false} CountTrades(events: seq<Event>, fills: nat)
    requires OneAckThenTrades(events, fills)
    ensures TradeCount(events) == fills
  {
    assert TradeCount(events) == TradeCount(events[1..]);
    AllTrades(events[1..]);
  }

  lemma {:induction false} AllTrades(events: seq<Event>)
    requires forall i :: 0 <= i < |events| ==> events[i].Traded?
    ensures TradeCount(events) == |events|
    decreases |events|
  {
    if events != [] {
      AllTrades(events[1..]);
    }
  }
}
