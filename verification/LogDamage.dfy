/**
 * What a torn tail promises about a log damaged in place: that the damage is confined to the final record.
 * It is not always so, and this module says exactly when it is.
 */
module LogDamage {
  import opened Types
  import opened Bytes
  import opened Checksums
  import opened EventLog

  /** A written log whose bytes changed in place, record `k` being the first that no longer decodes. */
  ghost predicate Damaged(rs: seq<LogRecord>, k: nat, bytes: seq<Byte>) {
    && AllOk(rs) && k < |rs| && |bytes| == |Frames(rs)| && Frames(rs[..k]) <= bytes
    && DecodeRecord(bytes, |Frames(rs[..k])|).error != NoError
  }

  /** The length field at `v` is not the one written, and now declares a frame ending with the log. */
  predicate Overreaches(bytes: seq<Byte>, v: nat, written: nat)
    requires v + HEADER_SIZE <= |bytes|
  {
    var size := DeclaredSize(bytes, v);
    size != written && size <= MAX_PAYLOAD && v + HEADER_SIZE + size + CHECKSUM_SIZE == |bytes|
  }

  /** Where record `k` starts, and how much stands from there on. */
  lemma {:induction false} FrameAt(rs: seq<LogRecord>, k: nat)
    requires k < |rs|
    ensures var v := |Frames(rs[..k])|;
            && |Frames(rs)| == v + |Frame(rs[k])| + |Frames(rs[k + 1..])|
            && (Frames(rs[k + 1..]) == [] <==> k + 1 == |rs|)
  {
    hide Frame;
    assert rs == rs[..k] + rs[k..];
    FramesJoin(rs[..k], rs[k..]);
    NextFrame(rs, k);
    if k + 1 < |rs| {
      NextFrame(rs, k + 1);
      FrameSize(rs[k + 1]);
    }
  }

  /** Recovery of a damaged log stops at the damage. */
  lemma {:induction false} StopsAtDamage(rs: seq<LogRecord>, k: nat, bytes: seq<Byte>)
    requires Damaged(rs, k, bytes)
    ensures var v := |Frames(rs[..k])|;
            var r := Recovered(bytes);
            && v + HEADER_SIZE <= |bytes| && r.records == rs[..k] && r.validBytes == v
            && r.tailError == DecodeRecord(bytes, v).error && bytes[..v] == Frames(rs[..k])
  {
    hide Scan, DecodeRecord, Frame, Frames, RecordOk, ClassifyTail;
    var v := |Frames(rs[..k])|;
    FrameAt(rs, k);
    FrameSize(rs[k]);
    assert bytes[0..v] == Frames(rs[..k]);
    ScanFinds(bytes, 0, rs[..k]);
    ScanUnrolls(bytes, v);
    assert rs[..k] + [] == rs[..k];
  }

  /** A record that does not decode although its declared frame fits has a bad checksum. */
  lemma {:induction false} FitsButFails(bytes: seq<Byte>, v: nat)
    requires v + HEADER_SIZE <= |bytes| && DecodeRecord(bytes, v).error != NoError
    ensures var size := DeclaredSize(bytes, v);
            DecodeRecord(bytes, v).error
            == if size > MAX_PAYLOAD then PayloadTooLarge
               else if |bytes| - v < HEADER_SIZE + size + CHECKSUM_SIZE then Truncated else BadChecksum
  {
    hide DeclaredSize, Checksum, Load, RecordAt;
  }

  /**
   * On a log damaged in place a torn tail means "only the last record" exactly when the length field of
   * the damaged record does not reach over later records to the end of the log. With the length field
   * intact the classification is exact: torn for the last record, corrupt for any other.
   */
  lemma {:induction false} TornTailIsTheLastRecord(rs: seq<LogRecord>, k: nat, bytes: seq<Byte>)
    requires Damaged(rs, k, bytes)
    ensures var v := |Frames(rs[..k])|;
            var r := Recovered(bytes);
            && v + HEADER_SIZE <= |bytes| && r.records == rs[..k]
            && ((r.tail.TornTail? ==> k + 1 == |rs|) <==> !Overreaches(bytes, v, |rs[k].payload|))
            && (DeclaredSize(bytes, v) == |rs[k].payload| ==>
                  r.tail == if k + 1 == |rs| then TornTail else Corrupt)
            && (Overreaches(bytes, v, |rs[k].payload|) ==>
                  r.tail.TornTail? && k + 2 <= |rs| && Repair(bytes) == Some(Frames(rs[..k])))
  {
    hide Scan, DecodeRecord, Frames, Frame, RecordOk, DeclaredSize;
    var v := |Frames(rs[..k])|;
    FrameAt(rs, k);
    StopsAtDamage(rs, k, bytes);
    FitsButFails(bytes, v);
    FrameLength(rs[k]);
    assert RecordOk(rs[k]);
    PayloadFits(rs[k]);
  }

  lemma {:induction false} FrameLength(r: LogRecord)
    ensures |Frame(r)| == HEADER_SIZE + |r.payload| + CHECKSUM_SIZE
  {
  }

  lemma {:induction false} PayloadFits(r: LogRecord)
    requires RecordOk(r)
    ensures |r.payload| <= MAX_PAYLOAD
  {
  }

  // ---- Such damage exists --------------------------------------------------------------------

  /** `log` with the first byte and the length field of the frame at `v` overwritten. */
  function Overwritten(log: seq<Byte>, v: nat, first: Byte, size: nat): (bytes: seq<Byte>)
    requires v + HEADER_SIZE <= |log|
    ensures |bytes| == |log|
  {
    log[..v] + ([first] + (log[v + 1..v + 18] + Store(size, 4) + log[v + 22..]))
  }

  lemma {:induction false} OverwrittenParts(log: seq<Byte>, v: nat, first: Byte, size: nat)
    requires v + HEADER_SIZE <= |log| && size < 0x1_0000_0000
    ensures var bytes := Overwritten(log, v, first, size);
            && bytes[..v] == log[..v] && bytes[v + HEADER_SIZE..] == log[v + HEADER_SIZE..]
            && DeclaredSize(bytes, v) == size
  {
    hide Store, Load;
    var bytes := Overwritten(log, v, first, size);
    assert bytes[v + 18..v + 22] == Store(size, 4);
    Widths();
    LoadStore(size, 4);
  }

  /** What the two versions of the first byte hash. */
  lemma {:induction false} HashedPart(log: seq<Byte>, v: nat, size: nat, end: nat)
    requires v + HEADER_SIZE <= end <= |log|
    ensures Checksum(Overwritten(log, v, 0, size)[v..end]) != Checksum(Overwritten(log, v, 1, size)[v..end])
    ensures Overwritten(log, v, 0, size)[end..] == log[end..] == Overwritten(log, v, 1, size)[end..]
  {
    hide Store, Checksum;
    var tail := log[v + 1..v + 18] + Store(size, 4) + log[v + 22..];
    var rest := tail[..end - v - 1];
    assert Overwritten(log, v, 0, size)[v..end] == [0] + rest;
    assert Overwritten(log, v, 1, size)[v..end] == [1] + rest;
    OneByteShows([0] + rest, 0, 1);
    assert ([0] + rest)[0 := 1] == [1] + rest;
  }

  /**
   * Take any written log and any record that is not its last, with at most a payload's worth of log
   * behind it. Overwriting two fields of that one record makes recovery report a torn tail, and repair
   * then cuts off that record and every intact one after it.
   */
  lemma {:induction false} TornTailCanSpanRecords(rs: seq<LogRecord>, k: nat) returns (bytes: seq<Byte>)
    requires AllOk(rs) && k + 1 < |rs|
    requires |Frames(rs)| - |Frames(rs[..k])| <= HEADER_SIZE + MAX_PAYLOAD + CHECKSUM_SIZE
    ensures var v := |Frames(rs[..k])|;
            && Damaged(rs, k, bytes) && v + HEADER_SIZE <= |bytes|
            && bytes[v + HEADER_SIZE..] == Frames(rs)[v + HEADER_SIZE..]
            && Recovered(bytes).tail.TornTail? && Repair(bytes) == Some(Frames(rs[..k]))
  {
    hide Scan, Frames, Frame, RecordOk, DeclaredSize, Overwritten, Recovered, Repair, Checksum, Load;
    var log, v := Frames(rs), |Frames(rs[..k])|;
    FrameAt(rs, k);
    FrameLength(rs[k]);
    FramesJoin(rs[..k], rs[k..]);
    assert rs == rs[..k] + rs[k..];
    var size, end := |log| - v - HEADER_SIZE - CHECKSUM_SIZE, |log| - CHECKSUM_SIZE;
    OverwrittenParts(log, v, 0, size);
    OverwrittenParts(log, v, 1, size);
    HashedPart(log, v, size, end);
    var zero, one := Overwritten(log, v, 0, size), Overwritten(log, v, 1, size);
    bytes := if Load(log[end..]) == Checksum(zero[v..end]) then one else zero;
    assert bytes[end..end + 4] == bytes[end..] == log[end..];
    assert DecodeRecord(bytes, v).error == BadChecksum;
    assert log[..v] == Frames(rs[..k]);
    TornTailIsTheLastRecord(rs, k, bytes);
  }

  // ---- One damaged byte ----------------------------------------------------------------------

  lemma {:induction false} LoadsApart(a: seq<Byte>, b: seq<Byte>)
    requires |a| == |b| && a != b
    ensures Load(a) != Load(b)
  {
    hide Load, Store;
    StoreLoad(a);
    StoreLoad(b);
  }

  /** What a slice sees of one overwritten byte. */
  lemma {:induction false} SliceOfOverwritten(s: seq<Byte>, at: nat, c: Byte, lo: nat, hi: nat)
    requires at < |s| && lo <= hi <= |s|
    ensures s[at := c][lo..hi] == if lo <= at < hi then s[lo..hi][at - lo := c] else s[lo..hi]
  {
  }

  /** What decoding looks at when the declared frame fits. */
  lemma {:induction false} FitsAndReads(bytes: seq<Byte>, offset: nat, size: nat)
    requires size <= MAX_PAYLOAD && offset + HEADER_SIZE + size + CHECKSUM_SIZE <= |bytes|
    requires DeclaredSize(bytes, offset) == size
    ensures var end := offset + HEADER_SIZE + size;
            DecodeRecord(bytes, offset).error
            == if Load(bytes[end..end + 4]) != Checksum(bytes[offset..end]) then BadChecksum else NoError
  {
    hide DeclaredSize, Checksum, Load, RecordAt;
  }

  /**
   * Overwrite any one byte of a written record other than its length field: its number, its type, its
   * timestamp, its payload or the stored checksum itself. Decoding reports the damage.
   */
  lemma {:induction false} OneByteIsCaught(r: LogRecord, bytes: seq<Byte>, offset: nat, i: nat, c: Byte)
    requires RecordOk(r) && offset + |Frame(r)| <= |bytes| && bytes[offset..offset + |Frame(r)|] == Frame(r)
    requires i < |Frame(r)| && !(18 <= i < 22) && bytes[offset + i] != c
    ensures DecodeRecord(bytes[offset + i := c], offset).error == BadChecksum
  {
    hide Frame, DecodeRecord, Checksum, Load, Store, RecordAt;
    var bad, size := bytes[offset + i := c], |r.payload|;
    var end := offset + HEADER_SIZE + size;
    FrameLength(r);
    DecodeFrame(r, bytes, offset);
    DeclaredIs(r, bytes, offset);
    SliceOfOverwritten(bytes, offset + i, c, offset + 18, offset + 22);
    SliceOfOverwritten(bytes, offset + i, c, offset, end);
    SliceOfOverwritten(bytes, offset + i, c, end, end + 4);
    FitsAndReads(bytes, offset, size);
    FitsAndReads(bad, offset, size);
    if i < HEADER_SIZE + size {
      OneByteShows(bytes[offset..end], i, c);
    } else {
      LoadsApart(bytes[end..end + 4], bad[end..end + 4]);
    }
  }

  lemma {:induction false} DeclaredIs(r: LogRecord, bytes: seq<Byte>, offset: nat)
    requires RecordOk(r) && offset + |Frame(r)| <= |bytes| && bytes[offset..offset + |Frame(r)|] == Frame(r)
    ensures offset + HEADER_SIZE <= |bytes| && DeclaredSize(bytes, offset) == |r.payload| <= MAX_PAYLOAD
  {
    hide Store, Load, Checksum, Header;
    FrameParts(r);
    SubSlice(bytes, offset, offset + |Frame(r)|, 0, HEADER_SIZE);
    HeaderFields(r, bytes, offset);
    Widths();
    LoadStore(|r.payload|, 4);
  }
}
