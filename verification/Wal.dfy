/** The write-ahead log: record framing, buffered writing, reading, and recovery of the sequence number. */
module Wal {
  import opened Common
  import opened Checksum

  const MAGIC := 0x5443574c
  const HEADER_SIZE := 24

  datatype Header = Header(magic: U32, version: U16, reserved: U16, sequence: U64, payloadSize: U32, checksum: U32)

  datatype Record = Record(header: Header, payload: seq<Byte>)

  /** What a caller appends: its payload and the one header field it may choose. */
  datatype Entry = Entry(reserved: U16, payload: seq<Byte>)

  datatype Reason = InvalidMagic | TruncatedRecord | ChecksumMismatch

  // ----- framing -----

  function HeaderBytes(h: Header): (r: seq<Byte>)
    ensures |r| == HEADER_SIZE
  {
    ToBytes(h.magic, 4) + ToBytes(h.version, 2) + ToBytes(h.reserved, 2) + ToBytes(h.sequence, 8)
    + ToBytes(h.payloadSize, 4) + ToBytes(h.checksum, 4)
  }

  function FieldU16(s: seq<Byte>): U16 { FromBytes(s) % 0x1_0000 }
  function FieldU32(s: seq<Byte>): U32 { FromBytes(s) % 0x1_0000_0000 }
  function FieldU64(s: seq<Byte>): U64 { FromBytes(s) % 0x1_0000_0000_0000_0000 }

  function ParseHeader(s: seq<Byte>): Header
    requires |s| >= HEADER_SIZE
  {
    Header(FieldU32(s[0..4]), FieldU16(s[4..6]), FieldU16(s[6..8]), FieldU64(s[8..16]), FieldU32(s[16..20]), FieldU32(s[20..24]))
  }

  lemma HeaderRoundTrip(h: Header, rest: seq<Byte>)
    ensures ParseHeader(HeaderBytes(h) + rest) == h
  {
    hide ToBytes, FromBytes, Power256;
    var s := HeaderBytes(h) + rest;
    Widths();
    assert s[0..4] == ToBytes(h.magic, 4);
    assert s[4..6] == ToBytes(h.version, 2);
    assert s[6..8] == ToBytes(h.reserved, 2);
    assert s[8..16] == ToBytes(h.sequence, 8);
    assert s[16..20] == ToBytes(h.payloadSize, 4);
    assert s[20..24] == ToBytes(h.checksum, 4);
    BytesRoundTrip(h.magic, 4);
    BytesRoundTrip(h.version, 2);
    BytesRoundTrip(h.reserved, 2);
    BytesRoundTrip(h.sequence, 8);
    BytesRoundTrip(h.payloadSize, 4);
    BytesRoundTrip(h.checksum, 4);
  }

  /** The header that `append` builds; the size field keeps only 32 bits. */
  function HeaderFor(e: Entry, sequence: U64): Header {
    Header(MAGIC, 1, e.reserved, sequence, |e.payload| % TWO_32, Checksum32(e.payload))
  }

  function RecordFor(e: Entry, sequence: U64): Record {
    Record(HeaderFor(e, sequence), e.payload)
  }

  function RecordBytes(e: Entry, sequence: U64): seq<Byte> {
    HeaderBytes(HeaderFor(e, sequence)) + e.payload
  }

  datatype Parsed = End | Failed(reason: Reason) | Got(record: Record, size: nat)

  /** One `next` on the bytes ahead of the reader. */
  function Parse(data: seq<Byte>): (r: Parsed)
    ensures r.Got? ==> HEADER_SIZE <= r.size <= |data| && r.size == HEADER_SIZE + r.record.header.payloadSize
  {
    if |data| < HEADER_SIZE then End
    else
      var h := ParseHeader(data);
      if h.magic != MAGIC then Failed(InvalidMagic)
      else if HEADER_SIZE + h.payloadSize > |data| then Failed(TruncatedRecord)
      else
        var payload := data[HEADER_SIZE..HEADER_SIZE + h.payloadSize];
        if h.payloadSize > 0 && h.checksum != Checksum32(payload) then Failed(ChecksumMismatch)
        else Got(Record(h, payload), HEADER_SIZE + h.payloadSize)
  }

  /** Reading to the end: the records seen, and what stopped the reading if it was an error. */
  datatype Scan = Scan(records: seq<Record>, error: Option<Reason>)

  function ScanAll(data: seq<Byte>): Scan
    decreases |data|
  {
    match Parse(data)
    case End => Scan([], None)
    case Failed(reason) => Scan([], Some(reason))
    case Got(record, size) => var rest := ScanAll(data[size..]); rest.(records := [record] + rest.records)
  }

  /** One `next` peels the first record off the rest of the scan. */
  lemma ScanHead(data: seq<Byte>, pos: nat)
    requires pos <= |data|
    ensures match Parse(data[pos..])
            case End => ScanAll(data[pos..]) == Scan([], None)
            case Failed(reason) => ScanAll(data[pos..]) == Scan([], Some(reason))
            case Got(record, size) =>
              && size <= |data| - pos
              && ScanAll(data[pos..]) == Scan([record] + ScanAll(data[pos + size..]).records, ScanAll(data[pos + size..]).error)
  {
    hide Parse;
    var here := data[pos..];
    match Parse(here)
    case Got(record, size) =>
      assert here[size..] == data[pos + size..];
    case _ =>
  }

  // ----- a log of entries -----

  /** Each payload fits its size field, and the sequence numbers fit theirs. */
  ghost predicate Fits(entries: seq<Entry>, first: nat) {
    && first + |entries| <= 0x1_0000_0000_0000_0000
    && forall i :: 0 <= i < |entries| ==> |entries[i].payload| < TWO_32
  }

  function LogBytes(entries: seq<Entry>, first: nat): seq<Byte>
    requires first + |entries| <= 0x1_0000_0000_0000_0000
  {
    if entries == [] then [] else RecordBytes(entries[0], first) + LogBytes(entries[1..], first + 1)
  }

  function LogRecords(entries: seq<Entry>, first: nat): (r: seq<Record>)
    requires first + |entries| <= 0x1_0000_0000_0000_0000
    ensures |r| == |entries|
    ensures forall i :: 0 <= i < |r| ==> r[i] == RecordFor(entries[i], first + i)
  {
    if entries == [] then [] else [RecordFor(entries[0], first)] + LogRecords(entries[1..], first + 1)
  }

  /** The header and the payload-sized stretch behind it. */
  lemma ParseBody(h: Header, payload: seq<Byte>, rest: seq<Byte>)
    requires h.payloadSize == |payload|
    ensures var data := HeaderBytes(h) + payload + rest;
            && ParseHeader(data) == h
            && data[HEADER_SIZE..HEADER_SIZE + h.payloadSize] == payload
            && data[HEADER_SIZE + h.payloadSize..] == rest
  {
    hide HeaderBytes, ParseHeader;
    var data := HeaderBytes(h) + payload + rest;
    assert data == HeaderBytes(h) + (payload + rest);
    HeaderRoundTrip(h, payload + rest);
  }

  lemma ParseRecord(e: Entry, sequence: U64, rest: seq<Byte>)
    requires |e.payload| < TWO_32
    ensures Parse(RecordBytes(e, sequence) + rest) == Got(RecordFor(e, sequence), |RecordBytes(e, sequence)|)
    ensures (RecordBytes(e, sequence) + rest)[|RecordBytes(e, sequence)|..] == rest
  {
    hide HeaderBytes, ParseHeader, Checksum32;
    ParseBody(HeaderFor(e, sequence), e.payload, rest);
  }

  /** What was written is what is read: all payloads, in order, numbered from `first`. */
  lemma {:induction false} LogRoundTrip(entries: seq<Entry>, first: nat, rest: seq<Byte>)
    requires Fits(entries, first)
    ensures var tail := ScanAll(rest);
            ScanAll(LogBytes(entries, first) + rest) == Scan(LogRecords(entries, first) + tail.records, tail.error)
    decreases |entries|
  {
    hide Parse, RecordBytes, RecordFor;
    var tail := ScanAll(rest);
    if entries == [] {
      assert LogBytes(entries, first) + rest == rest;
      assert LogRecords(entries, first) + tail.records == tail.records;
    } else {
      var more := LogBytes(entries[1..], first + 1) + rest;
      ParseRecord(entries[0], first, more);
      assert LogBytes(entries, first) + rest == RecordBytes(entries[0], first) + more;
      LogRoundTrip(entries[1..], first + 1, rest);
      assert LogRecords(entries, first) + tail.records
             == [RecordFor(entries[0], first)] + (LogRecords(entries[1..], first + 1) + tail.records);
    }
  }

  lemma {:induction false} LogBytesAppend(a: seq<Entry>, b: seq<Entry>, first: nat)
    requires first + |a| + |b| <= 0x1_0000_0000_0000_0000
    ensures LogBytes(a + b, first) == LogBytes(a, first) + LogBytes(b, first + |a|)
    decreases |a|
  {
    if a == [] {
      assert a + b == b;
    } else {
      assert (a + b)[1..] == a[1..] + b;
      LogBytesAppend(a[1..], b, first + 1);
      assert RecordBytes(a[0], first) + (LogBytes(a[1..], first + 1) + LogBytes(b, first + |a|))
             == RecordBytes(a[0], first) + LogBytes(a[1..], first + 1) + LogBytes(b, first + |a|);
    }
  }

  // ----- corruption -----

  /** A record with one altered payload byte is refused, whatever follows it. */
  lemma AlteredRecordRefused(e: Entry, sequence: U64, k: nat, b: Byte, rest: seq<Byte>)
    requires |e.payload| < TWO_32 && k < |e.payload| && e.payload[k] != b
    ensures Parse(HeaderBytes(HeaderFor(e, sequence)) + e.payload[k := b] + rest) == Failed(ChecksumMismatch)
  {
    hide HeaderBytes, ParseHeader, Checksum32;
    ParseBody(HeaderFor(e, sequence), e.payload[k := b], rest);
    SingleByteDetected(e.payload, k, b);
  }

  /** Reading a log with one altered payload byte delivers the records before it and then fails. */
  lemma AlteredLogStopsThere(before: seq<Entry>, e: Entry, k: nat, b: Byte, rest: seq<Byte>)
    requires Fits(before + [e], 1) && k < |e.payload| && e.payload[k] != b
    ensures ScanAll(LogBytes(before, 1) + (HeaderBytes(HeaderFor(e, 1 + |before|)) + e.payload[k := b] + rest))
            == Scan(LogRecords(before, 1), Some(ChecksumMismatch))
  {
    assert forall i :: 0 <= i < |before| ==> (before + [e])[i] == before[i];
    assert (before + [e])[|before|] == e;
    AlteredRecordRefused(e, 1 + |before|, k, b, rest);
    LogRoundTrip(before, 1, HeaderBytes(HeaderFor(e, 1 + |before|)) + e.payload[k := b] + rest);
    assert LogRecords(before, 1) + [] == LogRecords(before, 1);
  }

  // ----- the writer -----

  const TWO_64 := 0x1_0000_0000_0000_0000

  datatype WriterState = WriterState(file: seq<Byte>, buffer: seq<Byte>, nextSequence: U64)

  function Flushed(w: WriterState): WriterState {
    WriterState(w.file + w.buffer, [], w.nextSequence)
  }

  function Buffered(w: WriterState, e: Entry): WriterState {
    WriterState(w.file, w.buffer + RecordBytes(e, w.nextSequence), (w.nextSequence + 1) % TWO_64)
  }

  function Appended(w: WriterState, threshold: nat, e: Entry): WriterState {
    var w' := Buffered(w, e);
    if |w'.buffer| >= threshold then Flushed(w') else w'
  }

  /** The sequence number after the last record of a file. */
  function Recovered(data: seq<Byte>): U64 {
    var records := ScanAll(data).records;
    if records == [] then 1 else (records[|records| - 1].header.sequence + 1) % TWO_64
  }

  function Opened(file: seq<Byte>): WriterState {
    WriterState(file, [], Recovered(file))
  }

  datatype WriterOp = Append(entry: Entry) | Flush | Sync | Reopen

  function WriterStep(w: WriterState, threshold: nat, op: WriterOp): WriterState {
    match op
    case Append(e) => Appended(w, threshold, e)
    case Flush => Flushed(w)
    case Sync => Flushed(w)
    case Reopen => Opened(Flushed(w).file)
  }

  /** The writer holds this log: on disk, then in the buffer. */
  ghost predicate Holds(w: WriterState, log: seq<Entry>) {
    Fits(log, 1) && w.file + w.buffer == LogBytes(log, 1) && w.nextSequence == (|log| + 1) % TWO_64
  }

  lemma RecoveredLog(log: seq<Entry>)
    requires Fits(log, 1)
    ensures ScanAll(LogBytes(log, 1)) == Scan(LogRecords(log, 1), None)
    ensures Recovered(LogBytes(log, 1)) == (|log| + 1) % TWO_64
  {
    LogRoundTrip(log, 1, []);
    assert LogBytes(log, 1) + [] == LogBytes(log, 1) && LogRecords(log, 1) + [] == LogRecords(log, 1);
  }

  /** The log after an operation: an append adds one entry, everything else leaves the log alone. */
  function LogAfter(log: seq<Entry>, op: WriterOp): seq<Entry> {
    if op.Append? then log + [op.entry] else log
  }

  lemma FlushKeepsLog(w: WriterState, log: seq<Entry>)
    requires Holds(w, log)
    ensures Holds(Flushed(w), log) && Flushed(w).file == LogBytes(log, 1)
  {
    assert w.file + w.buffer + [] == w.file + w.buffer;
  }

  lemma BufferKeepsLog(w: WriterState, log: seq<Entry>, e: Entry)
    requires Holds(w, log) && Fits(log + [e], 1)
    ensures Holds(Buffered(w, e), log + [e])
  {
    hide RecordBytes;
    LogBytesAppend(log, [e], 1);
    assert w.nextSequence == 1 + |log|;
    assert LogBytes([e], 1 + |log|) == RecordBytes(e, 1 + |log|) by {
      assert [e][1..] == [];
      assert RecordBytes(e, 1 + |log|) + [] == RecordBytes(e, 1 + |log|);
    }
    assert w.file + (w.buffer + RecordBytes(e, w.nextSequence)) == w.file + w.buffer + RecordBytes(e, w.nextSequence);
  }

  lemma StepKeepsLog(w: WriterState, log: seq<Entry>, threshold: nat, op: WriterOp)
    requires Holds(w, log) && Fits(LogAfter(log, op), 1)
    ensures Holds(WriterStep(w, threshold, op), LogAfter(log, op))
    ensures !op.Append? ==> WriterStep(w, threshold, op).file == LogBytes(log, 1)
  {
    FlushKeepsLog(w, log);
    match op
    case Append(e) =>
      BufferKeepsLog(w, log, e);
      FlushKeepsLog(Buffered(w, e), log + [e]);
    case Flush =>
    case Sync =>
    case Reopen =>
      RecoveredLog(log);
      assert LogBytes(log, 1) + [] == LogBytes(log, 1);
  }

  function WriterRun(w: WriterState, threshold: nat, ops: seq<WriterOp>): WriterState {
    if ops == [] then w else WriterStep(WriterRun(w, threshold, ops[..|ops| - 1]), threshold, ops[|ops| - 1])
  }

  /** The log after a run of operations. */
  function LogAfterAll(log: seq<Entry>, ops: seq<WriterOp>): seq<Entry> {
    if ops == [] then log else LogAfter(LogAfterAll(log, ops[..|ops| - 1]), ops[|ops| - 1])
  }

  /**
   Under every schedule of appends, flushes, syncs and reopenings, at any
   threshold, the file followed by the buffer is the log of what was appended;
   once flushed, reading gives all entries in order, numbered from 1, and
   reopening resumes after them.
   */
  lemma {:induction false} AnyScheduleKeepsLog(w: WriterState, log: seq<Entry>, threshold: nat, ops: seq<WriterOp>)
    requires Holds(w, log) && Fits(LogAfterAll(log, ops), 1)
    ensures var w' := WriterRun(w, threshold, ops);
            var log' := LogAfterAll(log, ops);
            && Holds(w', log')
            && ScanAll(Flushed(w').file) == Scan(LogRecords(log', 1), None)
            && Opened(Flushed(w').file).nextSequence == (|log'| + 1) % TWO_64
  {
    hide Holds, ScanAll, LogBytes, LogRecords, Recovered, Flushed, WriterStep;
    var w', log' := WriterRun(w, threshold, ops), LogAfterAll(log, ops);
    if ops != [] {
      var before, op := ops[..|ops| - 1], ops[|ops| - 1];
      var mid := LogAfterAll(log, before);
      assert forall i :: 0 <= i < |mid| ==> log'[i] == mid[i];
      AnyScheduleKeepsLog(w, log, threshold, before);
      StepKeepsLog(WriterRun(w, threshold, before), mid, threshold, op);
    }
    FlushKeepsLog(w', log');
    RecoveredLog(log');
  }

  /** A new file holds the empty log. */
  lemma NewFileHoldsNothing()
    ensures Holds(Opened([]), [])
  {
  }

  // ----- seeking -----

  /** Where `seek_sequence` leaves the reader: before the first record numbered k or higher, or at the end. */
  datatype Sought = SoughtAt(pos: nat) | SeekFailed(reason: Reason)

  function SeekFrom(data: seq<Byte>, pos: nat, k: nat): Sought
    requires pos <= |data|
    decreases |data| - pos
  {
    match Parse(data[pos..])
    case End => SoughtAt(|data|)
    case Failed(reason) => SeekFailed(reason)
    case Got(record, size) => if record.header.sequence >= k then SoughtAt(pos) else SeekFrom(data, pos + size, k)
  }

  lemma SplitLog(log: seq<Entry>, j: nat)
    requires Fits(log, 1) && j <= |log|
    ensures LogBytes(log, 1) == LogBytes(log[..j], 1) + LogBytes(log[j..], 1 + j)
  {
    assert log == log[..j] + log[j..];
    LogBytesAppend(log[..j], log[j..], 1);
  }

  /** Where entry j starts in the file. */
  ghost function Offset(log: seq<Entry>, j: nat): (p: nat)
    requires Fits(log, 1) && j <= |log|
    ensures p <= |LogBytes(log, 1)| && LogBytes(log, 1)[p..] == LogBytes(log[j..], 1 + j)
  {
    SplitLog(log, j);
    |LogBytes(log[..j], 1)|
  }

  lemma NextOffset(log: seq<Entry>, j: nat)
    requires Fits(log, 1) && j < |log|
    ensures Offset(log, j + 1) == Offset(log, j) + |RecordBytes(log[j], 1 + j)|
    ensures Parse(LogBytes(log, 1)[Offset(log, j)..]) == Got(RecordFor(log[j], 1 + j), |RecordBytes(log[j], 1 + j)|)
  {
    hide RecordBytes, RecordFor, Parse;
    assert log[..j + 1] == log[..j] + [log[j]];
    LogBytesAppend(log[..j], [log[j]], 1);
    assert [log[j]][1..] == [];
    assert log[j..][0] == log[j] && log[j..][1..] == log[j + 1..];
    ParseRecord(log[j], 1 + j, LogBytes(log[j + 1..], 2 + j));
  }

  /** In a log numbered from 1, seeking k skips exactly the entries numbered below k. */
  lemma {:induction false} SeekFindsFirst(log: seq<Entry>, skipped: nat, k: nat)
    requires Fits(log, 1) && skipped <= |log| && skipped < Max(k, 1)
    ensures SeekFrom(LogBytes(log, 1), Offset(log, skipped), k) == SoughtAt(Offset(log, Min(|log|, Max(k, 1) - 1)))
    decreases |log| - skipped
  {
    hide RecordBytes, Parse, Offset, LogBytes;
    if skipped == |log| {
      EndOfLog(log);
    } else {
      NextOffset(log, skipped);
      if 1 + skipped < k {
        SeekFindsFirst(log, skipped + 1, k);
      }
    }
  }

  /** The call of `seek_sequence`, from the start of the file. */
  lemma SeekFromStart(log: seq<Entry>, k: nat)
    requires Fits(log, 1)
    ensures SeekFrom(LogBytes(log, 1), 0, k) == SoughtAt(Offset(log, Min(|log|, Max(k, 1) - 1)))
  {
    assert Offset(log, 0) == 0;
    SeekFindsFirst(log, 0, k);
  }

  lemma EndOfLog(log: seq<Entry>)
    requires Fits(log, 1)
    ensures Offset(log, |log|) == |LogBytes(log, 1)| && Parse(LogBytes(log, 1)[Offset(log, |log|)..]) == End
  {
    assert log[..|log|] == log && log[|log|..] == [];
  }

  // ----- the bytes of a record, and what else a reader may meet -----

  lemma MagicBytes()
    ensures ToBytes(MAGIC, 4) == [0x4c, 0x57, 0x43, 0x54]
    ensures ToBytes(1, 2) == [1, 0]
  {
    assert MAGIC == 0x4c + 256 * (0x57 + 256 * (0x43 + 256 * 0x54));
    assert ToBytes(0x54, 1) == [0x54];
    assert ToBytes(0x43 + 256 * 0x54, 2) == [0x43, 0x54];
    assert ToBytes(0x57 + 256 * (0x43 + 256 * 0x54), 3) == [0x57, 0x43, 0x54];
  }

  /** Where each field of a record stands in the file. */
  lemma RecordLayout(e: Entry, sequence: U64)
    requires |e.payload| < TWO_32
    ensures var r := RecordBytes(e, sequence);
            && |r| == 24 + |e.payload|
            && r[0..4] == [0x4c, 0x57, 0x43, 0x54] && r[4..6] == [1, 0] && r[6..8] == ToBytes(e.reserved, 2)
            && r[8..16] == ToBytes(sequence, 8) && r[16..20] == ToBytes(|e.payload|, 4)
            && r[20..24] == ToBytes(Checksum32(e.payload), 4) && r[24..] == e.payload
  {
    hide ToBytes, Checksum32;
    MagicBytes();
    HeaderLayout(HeaderFor(e, sequence));
    hide HeaderBytes;
    var h, r := HeaderBytes(HeaderFor(e, sequence)), RecordBytes(e, sequence);
    assert r[0..4] == h[0..4] && r[4..6] == h[4..6] && r[6..8] == h[6..8] && r[8..16] == h[8..16];
    assert r[16..20] == h[16..20] && r[20..24] == h[20..24];
  }

  lemma HeaderLayout(h: Header)
    ensures var r := HeaderBytes(h);
            && r[0..4] == ToBytes(h.magic, 4) && r[4..6] == ToBytes(h.version, 2) && r[6..8] == ToBytes(h.reserved, 2)
            && r[8..16] == ToBytes(h.sequence, 8) && r[16..20] == ToBytes(h.payloadSize, 4) && r[20..24] == ToBytes(h.checksum, 4)
  {
    hide ToBytes;
  }

  /** A record that ends early is the end of the log while its header is not complete, and an error from then on. */
  lemma TruncatedRecordRefused(e: Entry, sequence: U64, n: nat)
    requires |e.payload| < TWO_32 && n < |RecordBytes(e, sequence)|
    ensures Parse(RecordBytes(e, sequence)[..n]) == if n < 24 then End else Failed(TruncatedRecord)
  {
    hide HeaderBytes, ParseHeader, Checksum32;
    var h := HeaderFor(e, sequence);
    if n >= 24 {
      assert RecordBytes(e, sequence)[..n] == HeaderBytes(h) + e.payload[..n - 24];
      HeaderRoundTrip(h, e.payload[..n - 24]);
    }
  }

  /** What is in front of a torn record is delivered. */
  lemma TornTail(log: seq<Entry>, e: Entry, n: nat)
    requires Fits(log + [e], 1) && n < |RecordBytes(e, 1 + |log|)|
    ensures ScanAll(LogBytes(log, 1) + RecordBytes(e, 1 + |log|)[..n])
            == Scan(LogRecords(log, 1), if n < 24 then None else Some(TruncatedRecord))
  {
    assert forall i :: 0 <= i < |log| ==> (log + [e])[i] == log[i];
    assert (log + [e])[|log|] == e;
    TruncatedRecordRefused(e, 1 + |log|, n);
    LogRoundTrip(log, 1, RecordBytes(e, 1 + |log|)[..n]);
    assert LogRecords(log, 1) + [] == LogRecords(log, 1);
  }

  lemma WrongMagicRefused(h: Header, rest: seq<Byte>)
    requires h.magic != 0x5443574c
    ensures Parse(HeaderBytes(h) + rest) == Failed(InvalidMagic)
  {
    hide HeaderBytes, ParseHeader;
    HeaderRoundTrip(h, rest);
  }

  /** A wrong checksum field is refused exactly if there is a payload; an empty one is not checked. */
  lemma WrongChecksumRefused(e: Entry, sequence: U64, checksum: U32, rest: seq<Byte>)
    requires |e.payload| < TWO_32 && checksum != Checksum32(e.payload)
    ensures var h := HeaderFor(e, sequence).(checksum := checksum);
            Parse(HeaderBytes(h) + e.payload + rest) == if e.payload == [] then Got(Record(h, []), 24) else Failed(ChecksumMismatch)
  {
    hide HeaderBytes, ParseHeader, Checksum32;
    ParseBody(HeaderFor(e, sequence).(checksum := checksum), e.payload, rest);
  }

  /** An append writes the file exactly when the buffered bytes reach the threshold, and then leaves none of them behind. */
  lemma FlushAtThreshold(w: WriterState, threshold: nat, e: Entry)
    ensures var w' := Appended(w, threshold, e);
            var bytes := RecordBytes(e, w.nextSequence);
            && w'.file + w'.buffer == w.file + w.buffer + bytes
            && (if |w.buffer| + |bytes| >= threshold then w'.buffer == [] else w'.file == w.file)
  {
    hide RecordBytes;
  }
}
