/** The framed append-only log: encoding, longest-valid-prefix scan, tail classification and repair. */
module EventLog {
  import opened Types
  import opened Bytes
  import opened Checksums

  const HEADER_SIZE := 22
  const CHECKSUM_SIZE := 4
  const MAX_PAYLOAD := 0x10_0000

  datatype LogRecord = LogRecord(seqNo: nat, kind: nat, timestamp: nat, payload: seq<Byte>)

  datatype LogError = NoError | Truncated | BadChecksum | PayloadTooLarge

  datatype RecordRead = RecordRead(error: LogError, record: LogRecord, next: nat)

  datatype TailState = CleanTail | TornTail | Corrupt

  datatype Recovery = Recovery(tail: TailState, tailError: LogError, records: seq<LogRecord>, validBytes: nat)

  const NO_RECORD := LogRecord(0, 0, 0, [])

  // ---- Encoding ------------------------------------------------------------------------------

  /** The integer widths of the frame. */
  predicate RecordOk(r: LogRecord) {
    && r.seqNo < 0x1_0000_0000_0000_0000 && r.kind < 0x1_0000 && r.timestamp < 0x1_0000_0000_0000_0000
    && |r.payload| <= MAX_PAYLOAD
  }

  function Header(r: LogRecord): (h: seq<Byte>)
    ensures |h| == HEADER_SIZE
  {
    Store(r.seqNo, 8) + Store(r.kind, 2) + Store(r.timestamp, 8) + Store(|r.payload|, 4)
  }

  function Frame(r: LogRecord): (f: seq<Byte>)
    ensures |f| == HEADER_SIZE + |r.payload| + CHECKSUM_SIZE
  {
    Header(r) + r.payload + Store(Checksum(Header(r) + r.payload), 4)
  }

  function Frames(rs: seq<LogRecord>): seq<Byte> {
    if rs == [] then [] else Frame(rs[0]) + Frames(rs[1..])
  }

  method EncodeRecord(r: LogRecord, out: seq<Byte>) returns (ok: bool, appended: seq<Byte>)
    ensures ok <==> |r.payload| <= MAX_PAYLOAD
    ensures appended == if ok then out + Frame(r) else out
  {
    if |r.payload| > MAX_PAYLOAD {
      return false, out;
    }
    var buffer := out + Store(r.seqNo, 8);
    buffer := buffer + Store(r.kind, 2);
    buffer := buffer + Store(r.timestamp, 8);
    buffer := buffer + Store(|r.payload|, 4);
    buffer := buffer + r.payload;
    assert buffer == out + (Header(r) + r.payload);
    var sum := Checksum(buffer[|out|..]);
    buffer := buffer + Store(sum, 4);
    return true, buffer;
  }

  // ---- Decoding ------------------------------------------------------------------------------

  function DeclaredSize(bytes: seq<Byte>, offset: nat): nat
    requires offset + HEADER_SIZE <= |bytes|
  {
    Load(bytes[offset + 18..offset + 22])
  }

  function RecordAt(bytes: seq<Byte>, offset: nat): LogRecord
    requires offset + HEADER_SIZE <= |bytes| && offset + HEADER_SIZE + DeclaredSize(bytes, offset) <= |bytes|
  {
    LogRecord(Load(bytes[offset..offset + 8]), Load(bytes[offset + 8..offset + 10]),
              Load(bytes[offset + 10..offset + 18]),
              bytes[offset + HEADER_SIZE..offset + HEADER_SIZE + DeclaredSize(bytes, offset)])
  }

  function DecodeRecord(bytes: seq<Byte>, offset: nat): RecordRead {
    if offset > |bytes| || |bytes| - offset < HEADER_SIZE then RecordRead(Truncated, NO_RECORD, offset)
    else
      var size := DeclaredSize(bytes, offset);
      if size > MAX_PAYLOAD then RecordRead(PayloadTooLarge, NO_RECORD, offset)
      else if |bytes| - offset < HEADER_SIZE + size + CHECKSUM_SIZE then RecordRead(Truncated, NO_RECORD, offset)
      else
        var end := offset + HEADER_SIZE + size;
        if Load(bytes[end..end + 4]) != Checksum(bytes[offset..end]) then RecordRead(BadChecksum, NO_RECORD, offset)
        else RecordRead(NoError, RecordAt(bytes, offset), end + CHECKSUM_SIZE)
  }

  /** Where a frame's fields are. */
  lemma {:induction false} HeaderFields(r: LogRecord, bytes: seq<Byte>, offset: nat)
    requires offset + HEADER_SIZE <= |bytes| && bytes[offset..offset + HEADER_SIZE] == Header(r)
    ensures bytes[offset..offset + 8] == Store(r.seqNo, 8) && bytes[offset + 8..offset + 10] == Store(r.kind, 2)
    ensures bytes[offset + 10..offset + 18] == Store(r.timestamp, 8)
    ensures bytes[offset + 18..offset + 22] == Store(|r.payload|, 4)
  {
    hide Store;
    SubSlice(bytes, offset, offset + HEADER_SIZE, 0, 8);
    SubSlice(bytes, offset, offset + HEADER_SIZE, 8, 10);
    SubSlice(bytes, offset, offset + HEADER_SIZE, 10, 18);
    SubSlice(bytes, offset, offset + HEADER_SIZE, 18, 22);
    FieldsOf(Store(r.seqNo, 8), Store(r.kind, 2), Store(r.timestamp, 8), Store(|r.payload|, 4));
  }

  lemma {:induction false} FieldsOf(a: seq<Byte>, b: seq<Byte>, c: seq<Byte>, d: seq<Byte>)
    requires |a| == 8 && |b| == 2 && |c| == 8 && |d| == 4
    ensures var w := a + b + c + d; w[0..8] == a && w[8..10] == b && w[10..18] == c && w[18..22] == d
  {
  }

  lemma {:induction false} SubSlice<T>(s: seq<T>, a: nat, b: nat, i: nat, j: nat)
    requires a <= b <= |s| && i <= j <= b - a
    ensures s[a..b][i..j] == s[a + i..a + j]
  {
    var l, r := s[a..b][i..j], s[a + i..a + j];
    forall k | 0 <= k < j - i ensures l[k] == r[k] {
      assert l[k] == s[a..b][i + k];
    }
  }

  /** A record's frame, wherever it stands, decodes to that record. */
  lemma {:induction false} DecodeFrame(r: LogRecord, bytes: seq<Byte>, offset: nat)
    requires RecordOk(r) && offset + |Frame(r)| <= |bytes| && bytes[offset..offset + |Frame(r)|] == Frame(r)
    ensures DecodeRecord(bytes, offset) == RecordRead(NoError, r, offset + |Frame(r)|)
  {
    hide Header, Store, Load, Checksum;
    var f, end := Frame(r), offset + HEADER_SIZE + |r.payload|;
    FrameParts(r);
    SubSlice(bytes, offset, offset + |f|, 0, HEADER_SIZE);
    SubSlice(bytes, offset, offset + |f|, HEADER_SIZE, HEADER_SIZE + |r.payload|);
    SubSlice(bytes, offset, offset + |f|, HEADER_SIZE + |r.payload|, |f|);
    SubSlice(bytes, offset, offset + |f|, 0, HEADER_SIZE + |r.payload|);
    HeaderFields(r, bytes, offset);
    Widths();
    LoadStore(r.seqNo, 8);
    LoadStore(r.kind, 2);
    LoadStore(r.timestamp, 8);
    LoadStore(|r.payload|, 4);
    LoadStore(Checksum(Header(r) + r.payload), 4);
  }

  lemma {:induction false} FrameParts(r: LogRecord)
    ensures var f := Frame(r);
            && f[0..HEADER_SIZE] == Header(r)
            && f[HEADER_SIZE..HEADER_SIZE + |r.payload|] == r.payload
            && f[HEADER_SIZE + |r.payload|..|f|] == Store(Checksum(Header(r) + r.payload), 4)
            && f[0..HEADER_SIZE + |r.payload|] == Header(r) + r.payload
  {
    hide Header, Store, Checksum;
  }

  /** Whatever decodes is the frame of the record it decodes to. */
  lemma {:induction false} DecodedIsFrame(bytes: seq<Byte>, offset: nat)
    requires DecodeRecord(bytes, offset).error == NoError
    ensures var d := DecodeRecord(bytes, offset);
            && RecordOk(d.record) && offset < d.next <= |bytes|
            && d.next == offset + |Frame(d.record)| && bytes[offset..d.next] == Frame(d.record)
  {
    hide Store, Load, Checksum;
    var d := DecodeRecord(bytes, offset);
    var r, end := d.record, d.next - 4;
    Widths();
    StoreLoad(bytes[offset..offset + 8]);
    StoreLoad(bytes[offset + 8..offset + 10]);
    StoreLoad(bytes[offset + 10..offset + 18]);
    StoreLoad(bytes[offset + 18..offset + 22]);
    StoreLoad(bytes[end..end + 4]);
    var h := bytes[offset..offset + HEADER_SIZE];
    assert h == bytes[offset..offset + 8] + bytes[offset + 8..offset + 10] + bytes[offset + 10..offset + 18]
                + bytes[offset + 18..offset + 22];
    assert h == Header(r);
    assert bytes[offset..end] == h + r.payload;
    assert bytes[offset..d.next] == bytes[offset..end] + bytes[end..end + 4];
  }

  // ---- Scanning ------------------------------------------------------------------------------

  /** The records from `offset` on, up to the first that does not decode. */
  datatype Scanned = Scanned(records: seq<LogRecord>, end: nat, error: LogError)

  function Scan(bytes: seq<Byte>, offset: nat): Scanned
    decreases |bytes| - offset
  {
    if offset >= |bytes| then Scanned([], offset, NoError)
    else
      var d := DecodeRecord(bytes, offset);
      if d.error != NoError then Scanned([], offset, d.error)
      else
        DecodedIsFrame(bytes, offset);
        var rest := Scan(bytes, d.next);
        Scanned([d.record] + rest.records, rest.end, rest.error)
  }

  function ClassifyTail(bytes: seq<Byte>, error: LogError, valid: nat): TailState
    requires valid <= |bytes| && (error == BadChecksum ==> valid + HEADER_SIZE <= |bytes|)
  {
    match error
    case NoError => CleanTail
    case Truncated => if |bytes| - valid < HEADER_SIZE then TornTail else Corrupt
    case BadChecksum =>
      if valid + HEADER_SIZE + DeclaredSize(bytes, valid) + CHECKSUM_SIZE == |bytes| then TornTail else Corrupt
    case PayloadTooLarge => Corrupt
  }

  ghost predicate AllOk(rs: seq<LogRecord>) {
    forall i :: 0 <= i < |rs| ==> RecordOk(rs[i])
  }

  /** The scanned records re-encode to exactly the bytes scanned, and the scan stopped where decoding fails. */
  lemma {:induction false} ScanReencodes(bytes: seq<Byte>, offset: nat)
    requires offset <= |bytes|
    ensures var s := Scan(bytes, offset);
            && AllOk(s.records) && offset <= s.end <= |bytes| && bytes[offset..s.end] == Frames(s.records)
            && (s.error == NoError <==> s.end == |bytes|)
            && (s.error != NoError ==> DecodeRecord(bytes, s.end).error == s.error)
    decreases |bytes| - offset
  {
    hide DecodeRecord, Frame, RecordOk;
    if offset < |bytes| && DecodeRecord(bytes, offset).error == NoError {
      DecodedIsFrame(bytes, offset);
      var d := DecodeRecord(bytes, offset);
      ScanReencodes(bytes, d.next);
      var s := Scan(bytes, d.next);
      assert bytes[offset..s.end] == bytes[offset..d.next] + bytes[d.next..s.end];
      assert ([d.record] + s.records)[1..] == s.records;
    }
  }

  lemma {:induction false} BadChecksumHasHeader(bytes: seq<Byte>, offset: nat)
    requires DecodeRecord(bytes, offset).error == BadChecksum
    ensures offset + HEADER_SIZE <= |bytes|
  {
    hide DeclaredSize, Checksum, Load, RecordAt;
  }

  function Recovered(bytes: seq<Byte>): (r: Recovery)
    ensures r.validBytes <= |bytes|
  {
    var s := Scan(bytes, 0);
    ScanReencodes(bytes, 0);
    if s.error == BadChecksum then
      BadChecksumHasHeader(bytes, s.end);
      Recovery(ClassifyTail(bytes, s.error, s.end), s.error, s.records, s.end)
    else Recovery(ClassifyTail(bytes, s.error, s.end), s.error, s.records, s.end)
  }

  lemma {:induction false} ScanUnrolls(bytes: seq<Byte>, offset: nat)
    requires offset < |bytes|
    ensures var d := DecodeRecord(bytes, offset);
            if d.error != NoError then Scan(bytes, offset) == Scanned([], offset, d.error)
            else
              && offset < d.next <= |bytes|
              && (var rest := Scan(bytes, d.next);
                  Scan(bytes, offset) == Scanned([d.record] + rest.records, rest.end, rest.error))
  {
    hide DecodeRecord, Frame, RecordOk;
    if DecodeRecord(bytes, offset).error == NoError {
      DecodedIsFrame(bytes, offset);
    }
  }

  method RecoverLog(bytes: seq<Byte>) returns (r: Recovery)
    ensures r == Recovered(bytes)
  {
    hide DecodeRecord, Scan, ClassifyTail;
    var records: seq<LogRecord>, offset, error := [], 0, NoError;
    ghost var whole := Scan(bytes, 0);
    assert [] + whole.records == whole.records;
    while offset < |bytes|
      invariant 0 <= offset <= |bytes| && error == NoError
      invariant var rest := Scan(bytes, offset); whole == Scanned(records + rest.records, rest.end, rest.error)
    {
      ScanUnrolls(bytes, offset);
      var d := DecodeRecord(bytes, offset);
      if d.error != NoError {
        error := d.error;
        break;
      }
      ghost var rest := Scan(bytes, d.next);
      assert records + ([d.record] + rest.records) == records + [d.record] + rest.records;
      records := records + [d.record];
      offset := d.next;
    }
    if offset == |bytes| {
      ScanAtEnd(bytes, offset);
    }
    assert records + [] == records;
    ScanReencodes(bytes, 0);
    if error == BadChecksum {
      BadChecksumHasHeader(bytes, offset);
    }
    r := Recovery(ClassifyTail(bytes, error, offset), error, records, offset);
  }

  lemma {:induction false} ScanAtEnd(bytes: seq<Byte>, offset: nat)
    requires offset >= |bytes|
    ensures Scan(bytes, offset) == Scanned([], offset, NoError)
  {
  }

  // ---- Longest valid prefix ------------------------------------------------------------------

  /** Records whose frames stand at `offset` are exactly what the scan finds first. */
  lemma {:induction false} ScanFinds(bytes: seq<Byte>, offset: nat, rs: seq<LogRecord>)
    requires AllOk(rs) && offset + |Frames(rs)| <= |bytes| && bytes[offset..offset + |Frames(rs)|] == Frames(rs)
    ensures var rest := Scan(bytes, offset + |Frames(rs)|);
            Scan(bytes, offset) == Scanned(rs + rest.records, rest.end, rest.error)
    decreases |rs|
  {
    hide DecodeRecord, Frame, Scan, RecordOk;
    if rs == [] {
      assert [] + Scan(bytes, offset).records == Scan(bytes, offset).records;
    } else {
      var f, g := Frame(rs[0]), Frames(rs[1..]);
      SubSlice(bytes, offset, offset + |Frames(rs)|, 0, |f|);
      SubSlice(bytes, offset, offset + |Frames(rs)|, |f|, |f| + |g|);
      SplitAt(f, g);
      assert RecordOk(rs[0]);
      FrameSize(rs[0]);
      DecodeFrame(rs[0], bytes, offset);
      ScanUnrolls(bytes, offset);
      ScanFinds(bytes, offset + |f|, rs[1..]);
      var rest := Scan(bytes, offset + |Frames(rs)|);
      assert [rs[0]] + (rs[1..] + rest.records) == rs + rest.records;
    }
  }

  lemma {:induction false} SplitAt<T>(f: seq<T>, g: seq<T>)
    ensures (f + g)[0..|f|] == f && (f + g)[|f|..|f| + |g|] == g
  {
  }

  lemma {:induction false} FrameSize(r: LogRecord)
    ensures |Frame(r)| >= HEADER_SIZE + CHECKSUM_SIZE
  {
  }

  /** Recovery finds every record of every valid prefix: nothing decodable is left behind. */
  lemma {:induction false} RecoveryIsLongest(bytes: seq<Byte>, rs: seq<LogRecord>)
    requires AllOk(rs) && Frames(rs) <= bytes
    ensures var r := Recovered(bytes);
            rs <= r.records && |Frames(rs)| <= r.validBytes && bytes[..r.validBytes] == Frames(r.records)
  {
    hide Scan, Frames, ClassifyTail;
    assert bytes[0..|Frames(rs)|] == Frames(rs);
    ScanFinds(bytes, 0, rs);
    ScanReencodes(bytes, 0);
    ScanReencodes(bytes, |Frames(rs)|);
    assert bytes[0..Scan(bytes, 0).end] == bytes[..Scan(bytes, 0).end];
  }

  // ---- Cutting an encoded log ----------------------------------------------------------------

  lemma {:induction false} FramesJoin(a: seq<LogRecord>, b: seq<LogRecord>)
    ensures Frames(a + b) == Frames(a) + Frames(b)
    decreases |a|
  {
    hide Frame;
    if a == [] {
      assert [] + b == b;
    } else {
      FramesJoin(a[1..], b);
      assert (a + b)[1..] == a[1..] + b && (a + b)[0] == a[0];
    }
  }

  /** How many whole records are in the first `cut` bytes of an encoded log. */
  function WholeRecords(rs: seq<LogRecord>, cut: nat): (n: nat)
    ensures n <= |rs|
  {
    if rs == [] || cut < |Frame(rs[0])| then 0 else 1 + WholeRecords(rs[1..], cut - |Frame(rs[0])|)
  }

  lemma {:induction false} WholeRecordsFit(rs: seq<LogRecord>, cut: nat)
    requires cut <= |Frames(rs)|
    ensures var n := WholeRecords(rs, cut);
            && |Frames(rs[..n])| <= cut
            && (n < |rs| ==> cut < |Frames(rs[..n])| + |Frame(rs[n])|)
            && (n == |rs| ==> cut == |Frames(rs)|)
    decreases |rs|
  {
    hide Frame;
    if rs != [] && cut >= |Frame(rs[0])| {
      WholeRecordsFit(rs[1..], cut - |Frame(rs[0])|);
      var n := WholeRecords(rs, cut);
      assert rs[..n][0] == rs[0] && rs[..n][1..] == rs[1..][..n - 1];
    }
  }

  /** A partial frame never decodes; which error it gives depends only on whether its header is complete. */
  lemma {:induction false} PartialFrame(r: LogRecord, bytes: seq<Byte>, offset: nat)
    requires RecordOk(r) && offset <= |bytes| < offset + |Frame(r)| && bytes[offset..] == Frame(r)[..|bytes| - offset]
    ensures DecodeRecord(bytes, offset).error == Truncated
  {
    hide Header, Store, Load, Checksum;
    if |bytes| - offset >= HEADER_SIZE {
      FrameParts(r);
      assert bytes[offset..offset + HEADER_SIZE] == bytes[offset..][0..HEADER_SIZE];
      assert Frame(r)[..|bytes| - offset][0..HEADER_SIZE] == Frame(r)[0..HEADER_SIZE];
      HeaderFields(r, bytes, offset);
      Widths();
      LoadStore(|r.payload|, 4);
    }
  }

  /**
   * Cut an encoded log anywhere: the records wholly before the cut come back, and the tail is clean on
   * a boundary, torn inside a header, and corrupt once a full header is there.
   */
  lemma {:induction false} CutLog(rs: seq<LogRecord>, cut: nat)
    requires AllOk(rs) && cut <= |Frames(rs)|
    ensures var n := WholeRecords(rs, cut);
            var r := Recovered(Frames(rs)[..cut]);
            && r.records == rs[..n] && r.validBytes == |Frames(rs[..n])|
            && r.tail == (if cut == r.validBytes then CleanTail
                          else if cut - r.validBytes < HEADER_SIZE then TornTail else Corrupt)
  {
    hide Scan, DecodeRecord, Frame, RecordOk, Frames, WholeRecords;
    var n, bytes := WholeRecords(rs, cut), Frames(rs)[..cut];
    WholeRecordsFit(rs, cut);
    FramesJoin(rs[..n], rs[n..]);
    assert rs == rs[..n] + rs[n..];
    var v := |Frames(rs[..n])|;
    assert bytes[0..v] == Frames(rs[..n]);
    ScanFinds(bytes, 0, rs[..n]);
    if v == cut {
      ScanAtEnd(bytes, v);
      assert rs[..n] + [] == rs[..n];
    } else {
      assert rs[..|rs|] == rs;
      NextFrame(rs, n);
      assert bytes[v..] == Frame(rs[n])[..cut - v];
      assert RecordOk(rs[n]);
      PartialFrame(rs[n], bytes, v);
      ScanUnrolls(bytes, v);
      assert rs[..n] + [] == rs[..n];
    }
  }

  lemma {:induction false} NextFrame(rs: seq<LogRecord>, n: nat)
    requires n < |rs|
    ensures Frames(rs[n..]) == Frame(rs[n]) + Frames(rs[n + 1..])
  {
    hide Frame;
    assert rs[n..][0] == rs[n] && rs[n..][1..] == rs[n + 1..];
  }

  // ---- Repair --------------------------------------------------------------------------------

  /** The decision part of repair: a corrupt log is refused and left alone, a torn tail is cut off. */
  function Repair(bytes: seq<Byte>): (repaired: Option<seq<Byte>>)
  {
    var r := Recovered(bytes);
    ScanReencodes(bytes, 0);
    match r.tail
    case Corrupt => None
    case CleanTail => Some(bytes)
    case TornTail => Some(bytes[..r.validBytes])
  }

  /** A repaired log holds the same records, is clean, and takes further appends. */
  lemma {:induction false} RepairIsLossless(bytes: seq<Byte>, more: seq<LogRecord>)
    requires Repair(bytes).Some? && AllOk(more)
    ensures var log := Repair(bytes).value;
            && log == bytes[..|log|]
            && Recovered(log).records == Recovered(bytes).records && Recovered(log).tail.CleanTail?
            && Recovered(log + Frames(more)).records == Recovered(bytes).records + more
            && Recovered(log + Frames(more)).tail.CleanTail?
  {
    hide Scan, Frames, DecodeRecord, RecordOk, DeclaredSize;
    var r, log := Recovered(bytes), Repair(bytes).value;
    ScanReencodes(bytes, 0);
    assert bytes[0..r.validBytes] == bytes[..r.validBytes];
    assert log == Frames(r.records) by {
      if r.tail.CleanTail? { assert bytes[..|bytes|] == bytes; }
    }
    CleanLog(r.records);
    FramesJoin(r.records, more);
    CleanLog(r.records + more);
  }

  lemma {:induction false} CleanLog(rs: seq<LogRecord>)
    requires AllOk(rs)
    ensures Recovered(Frames(rs)).records == rs && Recovered(Frames(rs)).tail.CleanTail?
  {
    hide Scan, Frames, DecodeRecord, RecordOk, DeclaredSize;
    var bytes := Frames(rs);
    assert bytes[0..|bytes|] == bytes;
    ScanFinds(bytes, 0, rs);
    ScanAtEnd(bytes, |bytes|);
    assert rs + [] == rs;
  }

  /**
   * Repairing a log that was cut anywhere: left alone on a record boundary, cut back to the last whole record
   * inside a header, and refused once a full header is there.
   */
  lemma {:induction false} RepairOfCut(rs: seq<LogRecord>, cut: nat)
    requires AllOk(rs) && cut <= |Frames(rs)|
    ensures var n := WholeRecords(rs, cut);
            var kept := Frames(rs[..n]);
            Repair(Frames(rs)[..cut]) == if cut < |kept| + HEADER_SIZE then Some(kept) else None
  {
    hide Scan, DecodeRecord, Frame, RecordOk, Frames, WholeRecords, ClassifyTail;
    var n, bytes := WholeRecords(rs, cut), Frames(rs)[..cut];
    CutLog(rs, cut);
    FramesJoin(rs[..n], rs[n..]);
    assert rs == rs[..n] + rs[n..];
    WholeRecordsFit(rs, cut);
    assert bytes[..|Frames(rs[..n])|] == Frames(rs[..n]);
    if cut == |Frames(rs[..n])| {
      assert bytes[..cut] == bytes;
    }
  }
}
