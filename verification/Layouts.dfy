/**
 * The documented byte layouts: what stands at which offset of a wire frame, a log record and a recorded
 * command, and exactly which bytes the decoders accept.
 */
module Layouts {
  import opened Types
  import opened Bytes
  import opened Checksums
  import opened Engine
  import opened Gateway
  import W = Wire
  import F = FieldWidths
  import L = EventLog
  import C = CommandCodec

  // ---- Big-endian numbers --------------------------------------------------------------------

  /** The first byte counts most. */
  lemma {:induction false} BigEndian(a: seq<Byte>, b: seq<Byte>)
    ensures Load(a + b) == Load(a) * Pow256(|b|) + Load(b)
    decreases |b|
  {
    if b == [] {
      assert a + b == a;
    } else {
      var n := |b| - 1;
      BigEndian(a, b[..n]);
      assert (a + b)[..|a + b| - 1] == a + b[..n] && (a + b)[|a + b| - 1] == b[n];
      Shifting(Load(a), Pow256(n), Load(b[..n]), b[n]);
    }
  }

  lemma {:induction false} Shifting(x: nat, p: nat, y: nat, c: nat)
    ensures 256 * (x * p + y) + c == x * (256 * p) + (256 * y + c)
  {
    assert 256 * (x * p) == x * (256 * p);
  }

  lemma {:induction false} LoadOne(s: seq<Byte>)
    requires |s| == 1
    ensures Load(s) == s[0]
  {
    assert s[..0] == [];
  }

  lemma {:induction false} LoadTwo(s: seq<Byte>)
    requires |s| == 2
    ensures Load(s) == (s[0] as int) * 256 + s[1]
  {
    LoadOne(s[..1]);
  }

  // ---- Wire frames ---------------------------------------------------------------------------

  /** A known type, version one and a body of at most 4096 bytes. */
  predicate GoodHeader(b: seq<Byte>)
    requires |b| >= 16
  {
    b[0] == 0 && 1 <= b[1] <= 9 && b[2] == 0 && b[3] == 1 && Load(b[4..8]) <= 4096
  }

  /** A buffer is refused on its header alone, waits for a declared body, or starts with a frame of that size. */
  lemma {:induction false} FrontFrameMeans(b: seq<Byte>)
    ensures W.FrontFrame(b)
            == if |b| < 16 then W.NeedMore
               else if !GoodHeader(b) then W.BadHeader
               else if |b| < 16 + Load(b[4..8]) then W.NeedMore else W.Whole(16 + Load(b[4..8]))
  {
    hide Load;
    if |b| >= 16 {
      LoadTwo(b[0..2]);
      LoadTwo(b[2..4]);
    }
  }

  /** Exactly which frames are new orders, and where their fields are. */
  lemma {:induction false} OrderLayout(f: seq<Byte>)
    requires |f| >= 16
    ensures W.Decode(f).OrderRequest? <==>
              f[0] == 0 && f[1] == 1 && |f| == 43 && f[40] <= 1 && f[41] <= 1 && f[42] <= 1
    ensures W.Decode(f).OrderRequest? ==>
              var c := W.Decode(f).command;
              && c.id == Load(f[16..24]) && c.symbol == Load(f[24..28]) && c.quantity == Load(f[36..40])
              && (c.side.Sell? <==> f[40] == 1) && (c.NewMarket? <==> f[41] == 1)
              && (c.NewLimit? ==> c.price == Signed64(Load(f[28..36])) && (c.tif.IOC? <==> f[42] == 1))
  {
    hide Load, Signed64;
    LoadTwo(f[0..2]);
    if |f| == 43 {
      var body := f[16..];
      assert body[0..8] == f[16..24] && body[8..12] == f[24..28] && body[12..20] == f[28..36];
      assert body[20..24] == f[36..40] && body[24] == f[40] && body[25] == f[41] && body[26] == f[42];
    }
  }

  /** Exactly which frames are cancels and heartbeats, and where their fields are; all else is malformed. */
  lemma {:induction false} OtherLayouts(f: seq<Byte>)
    requires |f| >= 16
    ensures W.Decode(f).CancelRequest? <==> f[0] == 0 && f[1] == 2 && |f| == 28
    ensures W.Decode(f).CancelRequest? ==>
              W.Decode(f).id == Load(f[16..24]) && W.Decode(f).symbol == Load(f[24..28])
    ensures W.Decode(f).HeartbeatRequest? <==> f[0] == 0 && f[1] == 5 && |f| == 24
    ensures W.Decode(f).HeartbeatRequest? ==> W.Decode(f).token == Load(f[16..24])
  {
    hide Load, Signed64;
    LoadTwo(f[0..2]);
    if |f| == 28 {
      assert f[16..][0..8] == f[16..24] && f[16..][8..12] == f[24..28];
    } else if |f| == 24 {
      assert f[16..] == f[16..24];
    }
  }

  /** A reply's header: its type, version one, the size of its body, and no sequence number. */
  ghost predicate ReplyHeader(f: seq<Byte>, kind: nat, body: nat) {
    && |f| == 16 + body && Load(f[0..2]) == kind && Load(f[2..4]) == 1 && Load(f[4..8]) == body && Load(f[8..16]) == 0
  }

  lemma {:induction false} FramedLayout(kind: nat, body: seq<Byte>)
    requires kind <= 9 && |body| <= 4096
    ensures var f := W.Framed(kind, body); ReplyHeader(f, kind, |body|) && f[16..] == body
  {
    hide Store, Load;
    var f := W.Framed(kind, body);
    assert f[0..2] == Store(kind, 2) && f[2..4] == Store(1, 2);
    assert f[4..8] == Store(|body|, 4) && f[8..16] == Store(0, 8);
    assert f[16..] == body;
    Widths();
    LoadStore(kind, 2);
    LoadStore(1, 2);
    LoadStore(|body|, 4);
    LoadStore(0, 8);
  }

  lemma {:induction false} AckLayout(id: OrderId, seqNo: nat)
    requires id < TWO64 && seqNo < TWO64
    ensures var f := W.Ack(id, seqNo);
            ReplyHeader(f, 7, 16) && Load(f[16..24]) == id && Load(f[24..32]) == seqNo
  {
    hide Store, Load, W.Framed;
    var body := Store(id, 8) + Store(seqNo, 8);
    FramedLayout(7, body);
    var f := W.Ack(id, seqNo);
    assert f[16..24] == f[16..][0..8] == body[0..8] == Store(id, 8);
    assert f[24..32] == f[16..][8..16] == body[8..16] == Store(seqNo, 8);
    Widths();
    LoadStore(id, 8);
    LoadStore(seqNo, 8);
  }

  /** A reject carries the id and the code of its reason. */
  lemma {:induction false} RejectLayout(id: OrderId, reason: RejectReason)
    requires id < TWO64
    ensures var f := W.RejectFrame(id, reason);
            && ReplyHeader(f, 8, 9) && Load(f[16..24]) == id
            && (f[24] == 1 <==> reason.UnknownSymbol?) && (f[24] == 2 <==> reason.InvalidPrice?)
            && (f[24] == 3 <==> reason.InvalidQuantity?) && (f[24] == 4 <==> reason.InvalidSide?)
            && (f[24] == 5 <==> reason.MaxQuantityExceeded?) && (f[24] == 6 <==> reason.MaxNotionalExceeded?)
            && (f[24] == 7 <==> reason.DuplicateOrderId?) && (f[24] == 8 <==> reason.UnknownOrder?)
            && (f[24] == 9 <==> reason.StorageExhausted?)
  {
    hide Store, Load, W.Framed;
    var body := Store(id, 8) + [W.ReasonByte(reason)];
    FramedLayout(8, body);
    var f := W.RejectFrame(id, reason);
    assert f[16..24] == f[16..][0..8] == body[0..8] == Store(id, 8);
    assert f[24] == f[16..][8] == body[8];
    Widths();
    LoadStore(id, 8);
  }

  lemma {:induction false} FillLayout(v: Event)
    requires v.Traded? && F.EventFits(v) && v.seqNo < TWO64
    ensures var f := W.Fill(v);
            && ReplyHeader(f, 9, 36) && Load(f[16..24]) == v.takerId && Load(f[24..32]) == v.makerId
            && Signed64(Load(f[32..40])) == v.price && Load(f[40..44]) == v.quantity && Load(f[44..52]) == v.seqNo
  {
    hide Store, Load, W.Framed, Signed64, Bits64;
    var body := Store(v.takerId, 8) + Store(v.makerId, 8) + Store(Bits64(v.price), 8) + Store(v.quantity, 4)
                + Store(v.seqNo, 8);
    FramedLayout(9, body);
    var f := W.Fill(v);
    assert f[16..24] == f[16..][0..8] == body[0..8] == Store(v.takerId, 8);
    assert f[24..32] == f[16..][8..16] == body[8..16] == Store(v.makerId, 8);
    assert f[32..40] == f[16..][16..24] == body[16..24] == Store(Bits64(v.price), 8);
    assert f[40..44] == f[16..][24..28] == body[24..28] == Store(v.quantity, 4);
    assert f[44..52] == f[16..][28..36] == body[28..36] == Store(v.seqNo, 8);
    Widths();
    LoadStore(v.takerId, 8);
    LoadStore(v.makerId, 8);
    LoadStore(v.quantity, 4);
    LoadStore(v.seqNo, 8);
    SignedRoundTrip(v.price);
  }

  lemma {:induction false} HeartbeatLayout(token: nat)
    requires token < TWO64
    ensures var f := W.HeartbeatAck(token); ReplyHeader(f, 6, 8) && Load(f[16..24]) == token
  {
    hide Store, Load, W.Framed;
    FramedLayout(6, Store(token, 8));
    var f := W.HeartbeatAck(token);
    assert f[16..24] == f[16..];
    Widths();
    LoadStore(token, 8);
  }

  // ---- Log records ---------------------------------------------------------------------------

  /** Number, type, timestamp and size in front of the payload, and behind it the checksum of all that. */
  lemma {:induction false} RecordLayout(r: L.LogRecord)
    requires L.RecordOk(r)
    ensures var f, n := L.Frame(r), |r.payload|;
            && |f| == 26 + n && Load(f[0..8]) == r.seqNo && Load(f[8..10]) == r.kind
            && Load(f[10..18]) == r.timestamp && Load(f[18..22]) == n
            && f[22..22 + n] == r.payload && Load(f[22 + n..]) == Checksum(f[..22 + n])
  {
    hide Store, Load, Checksum, L.Header;
    var f, n := L.Frame(r), |r.payload|;
    L.FrameParts(r);
    L.HeaderFields(r, f, 0);
    assert f[22 + n..] == f[22 + n..|f|] && f[..22 + n] == f[0..22 + n];
    Widths();
    LoadStore(r.seqNo, 8);
    LoadStore(r.kind, 2);
    LoadStore(r.timestamp, 8);
    LoadStore(n, 4);
    LoadStore(Checksum(L.Header(r) + r.payload), 4);
  }

  // ---- Recorded commands ---------------------------------------------------------------------

  /** Tag and length, and the enum bytes in their domain. */
  predicate GoodPayload(s: seq<Byte>) {
    && s != []
    && match s[0]
       case 0 => true
       case 1 => |s| >= 28 && s[25] <= 1 && s[26] <= 1
       case 2 => |s| >= 18 && s[13] <= 1
       case 3 => |s| >= 13
       case 4 => |s| >= 25
       case _ => false
  }

  /** Exactly which payloads decode. */
  lemma {:induction false} PayloadAccepted(s: seq<Byte>)
    ensures C.Decode(s).Some? <==> GoodPayload(s)
  {
    hide Load, Signed64, C.BytesName;
  }

  /** Where the fields of a payload that decodes are. */
  lemma {:induction false} PayloadLayout(s: seq<Byte>)
    requires C.Decode(s).Some?
    ensures var c := C.Decode(s).value;
            match c
            case RegisterSymbol(name) =>
              s[0] == 0 && |name| == |s| - 1 && forall i :: 0 <= i < |name| ==> name[i] as int == s[i + 1]
            case NewLimit(symbol, id, side, price, quantity, tif) =>
              && s[0] == 1 && symbol == Load(s[1..5]) && id == Load(s[5..13]) && price == Signed64(Load(s[13..21]))
              && quantity == Load(s[21..25]) && (side.Sell? <==> s[25] == 1) && (tif.IOC? <==> s[26] == 1)
            case NewMarket(symbol, id, side, quantity) =>
              && s[0] == 2 && symbol == Load(s[1..5]) && id == Load(s[5..13]) && (side.Sell? <==> s[13] == 1)
              && quantity == Load(s[14..18])
            case CancelOrder(symbol, id) => s[0] == 3 && symbol == Load(s[1..5]) && id == Load(s[5..13])
            case ModifyOrder(symbol, id, price, quantity) =>
              && s[0] == 4 && symbol == Load(s[1..5]) && id == Load(s[5..13]) && price == Signed64(Load(s[13..21]))
              && quantity == Load(s[21..25])
  {
    hide Load, Signed64;
  }
}
