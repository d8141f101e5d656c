/** The snapshot store: record framing, loading, and compaction to a suffix. */
module Snapshot {
  import opened Common
  import opened Checksum
  import Wal

  const MAGIC := 0x5443534e
  const VERSION_LEGACY := 1
  const VERSION_CHECKSUMMED := 2
  const HEADER_SIZE := 16

  datatype Header = Header(magic: U32, version: U16, reserved: U16, sequence: U32, payloadSize: U32)

  /** A snapshot as it is persisted and returned. */
  datatype Entry = Entry(sequence: U32, payload: seq<Byte>)

  datatype Options = Options(maxRecords: nat, maxFileBytes: nat)

  datatype Reason = InvalidMagic | UnsupportedVersion | TruncatedPayload | TruncatedChecksum | ChecksumMismatch | DirectoryNotSet

  // ----- framing -----

  function HeaderBytes(h: Header): (r: seq<Byte>)
    ensures |r| == HEADER_SIZE
  {
    ToBytes(h.magic, 4) + ToBytes(h.version, 2) + ToBytes(h.reserved, 2) + ToBytes(h.sequence, 4) + ToBytes(h.payloadSize, 4)
  }

  function ParseHeader(s: seq<Byte>): Header
    requires |s| >= HEADER_SIZE
  {
    Header(Wal.FieldU32(s[0..4]), Wal.FieldU16(s[4..6]), Wal.FieldU16(s[6..8]), Wal.FieldU32(s[8..12]), Wal.FieldU32(s[12..16]))
  }

  lemma HeaderRoundTrip(h: Header, rest: seq<Byte>)
    ensures ParseHeader(HeaderBytes(h) + rest) == h
  {
    hide ToBytes, FromBytes, Power256;
    var s := HeaderBytes(h) + rest;
    Widths();
    assert s[0..4] == ToBytes(h.magic, 4);
    assert s[4..6] == ToBytes(h.version, 2);
    assert s[6..8] == ToBytes(h.reserved, 2);
    assert s[8..12] == ToBytes(h.sequence, 4);
    assert s[12..16] == ToBytes(h.payloadSize, 4);
    BytesRoundTrip(h.magic, 4);
    BytesRoundTrip(h.version, 2);
    BytesRoundTrip(h.reserved, 2);
    BytesRoundTrip(h.sequence, 4);
    BytesRoundTrip(h.payloadSize, 4);
  }

  function HeaderFor(e: Entry): Header {
    Header(MAGIC, VERSION_CHECKSUMMED, 0, e.sequence, |e.payload| % TWO_32)
  }

  function RecordBytes(e: Entry): seq<Byte> {
    HeaderBytes(HeaderFor(e)) + e.payload + ToBytes(Checksum32(e.payload), 4)
  }

  datatype Parsed = End | Failed(reason: Reason) | Got(entry: Entry, size: nat)

  function Parse(data: seq<Byte>): (r: Parsed)
    ensures r.Got? ==> HEADER_SIZE <= r.size <= |data|
  {
    if |data| < HEADER_SIZE then End
    else
      var h := ParseHeader(data);
      var end := HEADER_SIZE + h.payloadSize;
      if h.magic != MAGIC then Failed(InvalidMagic)
      else if h.version != VERSION_LEGACY && h.version != VERSION_CHECKSUMMED then Failed(UnsupportedVersion)
      else if end > |data| then Failed(TruncatedPayload)
      else
        var e := Entry(h.sequence, data[HEADER_SIZE..end]);
        if h.version < VERSION_CHECKSUMMED then Got(e, end)
        else if end + 4 > |data| then Failed(TruncatedChecksum)
        else if Wal.FieldU32(data[end..end + 4]) != Checksum32(e.payload) then Failed(ChecksumMismatch)
        else Got(e, end + 4)
  }

  datatype Loaded = Loaded(entries: seq<Entry>, error: Option<Reason>)

  function Load(data: seq<Byte>): Loaded
    decreases |data|
  {
    match Parse(data)
    case End => Loaded([], None)
    case Failed(reason) => Loaded([], Some(reason))
    case Got(e, size) => var rest := Load(data[size..]); rest.(entries := [e] + rest.entries)
  }

  function FileBytes(entries: seq<Entry>): seq<Byte> {
    if entries == [] then [] else RecordBytes(entries[0]) + FileBytes(entries[1..])
  }

  ghost predicate Fits(entries: seq<Entry>) {
    forall i :: 0 <= i < |entries| ==> |entries[i].payload| < TWO_32
  }

  /** The bytes behind a header: payload, checksum, and whatever follows. */
  lemma ParseBody(e: Entry, payload: seq<Byte>, checksum: U32, rest: seq<Byte>)
    requires |payload| == |e.payload| < TWO_32
    ensures var data := HeaderBytes(HeaderFor(e)) + payload + ToBytes(checksum, 4) + rest;
            var end := HEADER_SIZE + |payload|;
            && ParseHeader(data) == HeaderFor(e)
            && data[HEADER_SIZE..end] == payload
            && Wal.FieldU32(data[end..end + 4]) == checksum
            && data[end + 4..] == rest
  {
    hide ToBytes, FromBytes, Power256, HeaderBytes, ParseHeader, Checksum32;
    var h, c := HeaderBytes(HeaderFor(e)), ToBytes(checksum, 4);
    var data := h + payload + c + rest;
    assert data == h + (payload + c + rest);
    HeaderRoundTrip(HeaderFor(e), payload + c + rest);
    assert data[HEADER_SIZE + |payload|..HEADER_SIZE + |payload| + 4] == c;
    Widths();
    BytesRoundTrip(checksum, 4);
  }

  lemma ParseRecord(e: Entry, rest: seq<Byte>)
    requires |e.payload| < TWO_32
    ensures Parse(RecordBytes(e) + rest) == Got(e, |RecordBytes(e)|)
    ensures (RecordBytes(e) + rest)[|RecordBytes(e)|..] == rest
  {
    hide ToBytes, HeaderBytes, ParseHeader, Checksum32;
    ParseBody(e, e.payload, Checksum32(e.payload), rest);
  }

  lemma {:induction false} FileRoundTrip(entries: seq<Entry>)
    requires Fits(entries)
    ensures Load(FileBytes(entries)) == Loaded(entries, None)
    decreases |entries|
  {
    hide Parse, RecordBytes;
    if entries == [] {
      EmptyFile();
    } else {
      ParseRecord(entries[0], FileBytes(entries[1..]));
      FileRoundTrip(entries[1..]);
    }
  }

  lemma EmptyFile()
    ensures Parse([]) == End
  {
  }

  lemma {:induction false} FileBytesAppend(a: seq<Entry>, b: seq<Entry>)
    ensures FileBytes(a + b) == FileBytes(a) + FileBytes(b)
    decreases |a|
  {
    hide RecordBytes;
    if a == [] {
      assert a + b == b;
    } else {
      assert (a + b)[1..] == a[1..] + b;
      FileBytesAppend(a[1..], b);
      assert RecordBytes(a[0]) + (FileBytes(a[1..]) + FileBytes(b)) == RecordBytes(a[0]) + FileBytes(a[1..]) + FileBytes(b);
    }
  }

  /** A record with one altered payload byte is refused. */
  lemma AlteredRecordRefused(e: Entry, k: nat, b: Byte, rest: seq<Byte>)
    requires |e.payload| < TWO_32 && k < |e.payload| && e.payload[k] != b
    ensures Parse(HeaderBytes(HeaderFor(e)) + e.payload[k := b] + ToBytes(Checksum32(e.payload), 4) + rest) == Failed(ChecksumMismatch)
  {
    hide ToBytes, HeaderBytes, ParseHeader, Checksum32;
    ParseBody(e, e.payload[k := b], Checksum32(e.payload), rest);
    SingleByteDetected(e.payload, k, b);
  }

  // ----- compaction -----

  function RecordSize(e: Entry): nat {
    HEADER_SIZE + |e.payload| + 4
  }

  function KeptSize(entries: seq<Entry>): nat {
    if entries == [] then 0 else RecordSize(entries[0]) + KeptSize(entries[1..])
  }

  /** The enabled limits; zero switches a limit off. */
  predicate Within(o: Options, entries: seq<Entry>) {
    && (o.maxRecords > 0 ==> |entries| <= o.maxRecords)
    && (o.maxFileBytes > 0 ==> KeptSize(entries) <= o.maxFileBytes)
  }

  function DropForBytes(o: Options, entries: seq<Entry>, start: nat): (i: nat)
    requires start <= |entries|
    ensures start <= i <= |entries|
    decreases |entries| - start
  {
    if start + 1 < |entries| && KeptSize(entries[start..]) > o.maxFileBytes then DropForBytes(o, entries, start + 1) else start
  }

  function Start(o: Options, entries: seq<Entry>): (i: nat)
    ensures i <= |entries|
  {
    var start := if o.maxRecords > 0 && |entries| > o.maxRecords then |entries| - o.maxRecords else 0;
    if o.maxFileBytes > 0 then DropForBytes(o, entries, start) else start
  }

  predicate NeedsCompaction(o: Options, fileSize: nat, entries: seq<Entry>) {
    (o.maxFileBytes > 0 && fileSize > o.maxFileBytes) || (o.maxRecords > 0 && |entries| > o.maxRecords)
  }

  /** The file after `compact_if_needed`, and the error that stopped it. */
  function CompactedFile(o: Options, data: seq<Byte>): (seq<Byte>, Option<Reason>) {
    if o.maxFileBytes == 0 && o.maxRecords == 0 then (data, None)
    else
      var loaded := Load(data);
      if loaded.error.Some? then (data, loaded.error)
      else if !NeedsCompaction(o, |data|, loaded.entries) || loaded.entries == [] then (data, None)
      else (FileBytes(loaded.entries[Start(o, loaded.entries)..]), None)
  }

  function PersistedFile(o: Options, file: seq<Byte>, e: Entry): (seq<Byte>, Option<Reason>) {
    CompactedFile(o, file + RecordBytes(e))
  }

  /** h[k..] is the longest suffix of h within the limits, or the last entry if even that is too big. */
  ghost predicate BestSuffix(o: Options, h: seq<Entry>, k: nat) {
    && k < |h|
    && (Within(o, h[k..]) || k == |h| - 1)
    && forall j :: 0 <= j < k ==> !Within(o, h[j..])
  }

  lemma {:induction false} KeptSizeAppend(a: seq<Entry>, b: seq<Entry>)
    ensures KeptSize(a + b) == KeptSize(a) + KeptSize(b)
    decreases |a|
  {
    if a == [] {
      assert a + b == b;
    } else {
      assert (a + b)[1..] == a[1..] + b;
      KeptSizeAppend(a[1..], b);
    }
  }

  lemma {:induction false} FileSize(entries: seq<Entry>)
    ensures |FileBytes(entries)| == KeptSize(entries)
  {
    if entries != [] {
      FileSize(entries[1..]);
    }
  }

  /** The loop drops entries only while the rest is too big, and stops when it fits or one is left. */
  lemma {:induction false} DropForBytesBest(o: Options, g: seq<Entry>, start: nat)
    requires start < |g|
    ensures var i := DropForBytes(o, g, start);
            && i < |g|
            && (i == |g| - 1 || KeptSize(g[i..]) <= o.maxFileBytes)
            && forall j :: start <= j < i ==> KeptSize(g[j..]) > o.maxFileBytes
    decreases |g| - start
  {
    hide KeptSize;
    if start + 1 < |g| && KeptSize(g[start..]) > o.maxFileBytes {
      DropForBytesBest(o, g, start + 1);
      var i := DropForBytes(o, g, start);
      forall j | start <= j < i
        ensures KeptSize(g[j..]) > o.maxFileBytes
      {
      }
    }
  }

  /** The suffix that compaction keeps is the best one. */
  lemma StartIsBest(o: Options, g: seq<Entry>)
    requires g != []
    ensures BestSuffix(o, g, Start(o, g))
  {
    hide KeptSize, DropForBytes;
    var start := if o.maxRecords > 0 && |g| > o.maxRecords then |g| - o.maxRecords else 0;
    if o.maxFileBytes > 0 {
      DropForBytesBest(o, g, start);
    }
    forall j | 0 <= j < Start(o, g)
      ensures !Within(o, g[j..])
    {
      assert |g[j..]| == |g| - j;
    }
  }

  /** What is within the limits is kept whole. */
  lemma WithinKeepsAll(o: Options, g: seq<Entry>)
    requires g != [] && Within(o, g)
    ensures Start(o, g) == 0
  {
    assert g[0..] == g;
  }

  /** A best suffix of the history, extended and compacted again, is the best suffix of the extended history. */
  lemma BestSuffixExtends(o: Options, h: seq<Entry>, k: nat, e: Entry)
    requires h == [] ==> k == 0
    requires h != [] ==> BestSuffix(o, h, k)
    ensures k <= |h|
    ensures BestSuffix(o, h + [e], k + Start(o, h[k..] + [e]))
  {
    hide Within, Start;
    var g, h' := h[k..] + [e], h + [e];
    var i := Start(o, g);
    StartIsBest(o, g);
    assert h'[k + i..] == g[i..];
    forall j | 0 <= j < k + i
      ensures !Within(o, h'[j..])
    {
      if j < k {
        assert !Within(o, h[j..]);
        if Within(o, h'[j..]) {
          WithinExtended(o, h, j, e);
        }
      } else {
        assert h'[j..] == g[j - k..];
      }
    }
  }

  /** What is over a limit stays over it when an entry is added. */
  lemma WithinExtended(o: Options, h: seq<Entry>, j: nat, e: Entry)
    requires j < |h| && Within(o, (h + [e])[j..])
    ensures Within(o, h[j..])
  {
    assert (h + [e])[j..] == h[j..] + [e];
    KeptSizeAppend(h[j..], [e]);
  }

  /** Persisting into a file of intact records compacts it to the part that Start keeps. */
  lemma PersistCompacts(o: Options, s: seq<Entry>, e: Entry)
    requires Fits(s + [e])
    ensures PersistedFile(o, FileBytes(s), e) == (FileBytes((s + [e])[Start(o, s + [e])..]), None)
  {
    hide RecordBytes;
    var g := s + [e];
    var data := FileBytes(s) + RecordBytes(e);
    FileBytesAppend(s, [e]);
    assert [e][1..] == [] && RecordBytes(e) + [] == RecordBytes(e);
    assert data == FileBytes(g);
    FileRoundTrip(g);
    FileSize(g);
    if !NeedsCompaction(o, |data|, g) || (o.maxFileBytes == 0 && o.maxRecords == 0) {
      WithinKeepsAll(o, g);
      assert g[0..] == g;
    }
  }

  // ----- whole histories -----

  function PersistAll(o: Options, history: seq<Entry>): (seq<Byte>, Option<Reason>) {
    if history == [] then ([], None)
    else
      var before := PersistAll(o, history[..|history| - 1]);
      if before.1.Some? then before else PersistedFile(o, before.0, history[|history| - 1])
  }

  function Latest(data: seq<Byte>): (Option<Entry>, Option<Reason>) {
    var loaded := Load(data);
    if loaded.error.Some? then (None, loaded.error)
    else if loaded.entries == [] then (None, None)
    else (Some(loaded.entries[|loaded.entries| - 1]), None)
  }

  lemma LastLoaded(o: Options, history: seq<Entry>, k: nat)
    requires Fits(history) && BestSuffix(o, history, k)
    ensures k < |history| && Latest(FileBytes(history[k..])) == (Some(history[|history| - 1]), None)
  {
    hide Load, FileBytes, Within;
    var kept := history[k..];
    FileRoundTrip(kept);
    assert kept[|kept| - 1] == history[|history| - 1];
  }

  /**
   After every persist, with fixed options, the file holds exactly the longest
   suffix of the whole history within the limits (or the last entry alone), and
   the latest snapshot is the one just persisted.
   */
  lemma {:induction false} HistoryKeepsBestSuffix(o: Options, history: seq<Entry>) returns (k: nat)
    requires Fits(history)
    ensures history == [] ==> k == 0
    ensures k <= |history| && PersistAll(o, history) == (FileBytes(history[k..]), None)
    ensures history != [] ==>
              BestSuffix(o, history, k) && Latest(PersistAll(o, history).0) == (Some(history[|history| - 1]), None)
  {
    if history == [] {
      k := 0;
    } else {
      var h, e := history[..|history| - 1], history[|history| - 1];
      assert history == h + [e];
      k := HistoryKeepsBestSuffix(o, h);
      k := ExtendHistory(o, h, k, e);
    }
  }

  lemma ExtendHistory(o: Options, h: seq<Entry>, k: nat, e: Entry) returns (k': nat)
    requires Fits(h + [e]) && k <= |h| && (h == [] ==> k == 0) && (h != [] ==> BestSuffix(o, h, k))
    requires PersistAll(o, h) == (FileBytes(h[k..]), None)
    ensures BestSuffix(o, h + [e], k') && PersistAll(o, h + [e]) == (FileBytes((h + [e])[k'..]), None)
    ensures Latest(PersistAll(o, h + [e]).0) == (Some(e), None)
  {
    hide BestSuffix, PersistAll, PersistedFile, Load, Latest, FileBytes, Fits;
    k' := k + Start(o, h[k..] + [e]);
    BestSuffixExtends(o, h, k, e);
    LastLoaded(o, h + [e], k');
    FitsTail(h + [e], k);
    assert (h + [e])[k..] == h[k..] + [e];
    PersistCompacts(o, h[k..], e);
    SuffixOfSuffix(h, e, k, k' - k);
    PersistLast(o, h, e);
  }

  lemma PersistLast(o: Options, h: seq<Entry>, e: Entry)
    requires PersistAll(o, h).1.None?
    ensures PersistAll(o, h + [e]) == PersistedFile(o, PersistAll(o, h).0, e)
  {
    hide PersistedFile;
    assert (h + [e])[..|h|] == h;
  }

  lemma FitsTail(entries: seq<Entry>, k: nat)
    requires Fits(entries) && k <= |entries|
    ensures Fits(entries[k..])
  {
  }

  lemma SuffixOfSuffix<T>(h: seq<T>, e: T, k: nat, i: nat)
    requires k <= |h| && k + i <= |h| + 1
    ensures (h + [e])[k + i..] == (h[k..] + [e])[i..]
  {
  }

  // ----- the store object -----

  class Store {
    var directorySet: bool
    var file: Option<seq<Byte>>
    var options: Options

    constructor (directory: bool, existing: Option<seq<Byte>>, o: Options)
      ensures directorySet == directory && file == existing && options == o
    {
      directorySet, file, options := directory, existing, o;
    }

    method Persist(e: Entry) returns (error: Option<Reason>)
      modifies this
      ensures directorySet == old(directorySet) && options == old(options)
      ensures if !directorySet then error == Some(DirectoryNotSet) && file == old(file)
              else (file.Some? && (file.value, error) ==
                    PersistedFile(options, if old(file).Some? then old(file).value else [], e))
    {
      hide Parse;
      if !directorySet {
        return Some(DirectoryNotSet);
      }
      var bytes := WriteRecord(e);
      var data := (if file.Some? then file.value else []) + bytes;
      file := Some(data);
      error := CompactIfNeeded(data);
    }

    method CompactIfNeeded(data: seq<Byte>) returns (error: Option<Reason>)
      requires file == Some(data)
      modifies `file
      ensures file.Some? && (file.value, error) == CompactedFile(options, data)
    {
      hide Parse, Load;
      var fileLimit, recordLimit := options.maxFileBytes > 0, options.maxRecords > 0;
      if !fileLimit && !recordLimit {
        return None;
      }
      var needs := fileLimit && |data| > options.maxFileBytes;
      var records, failure := LoadRecords(data);
      if failure.Some? {
        return failure;
      }
      if recordLimit && |records| > options.maxRecords {
        needs := true;
      }
      if !needs || records == [] {
        return None;
      }
      var start := 0;
      if recordLimit && |records| > options.maxRecords {
        start := |records| - options.maxRecords;
      }
      if fileLimit {
        start := DropWhileTooBig(records, start);
      }
      var out := WriteAll(records, start);
      file := Some(out);
      return None;
    }

    method DropWhileTooBig(records: seq<Entry>, first: nat) returns (start: nat)
      requires first <= |records|
      ensures start == DropForBytes(options, records, first)
    {
      start := first;
      while start + 1 < |records|
        invariant start <= |records| && DropForBytes(options, records, start) == DropForBytes(options, records, first)
        decreases |records| - start
      {
        var kept := SumSizes(records, start);
        if kept <= options.maxFileBytes {
          break;
        }
        start := start + 1;
      }
    }

    method Read() returns (latest: Option<Entry>, error: Option<Reason>)
      ensures (latest, error) == if file.Some? && directorySet then Latest(file.value) else (None, None)
    {
      if !directorySet || file.None? {
        return None, None;
      }
      var records, failure := LoadRecords(file.value);
      if failure.Some? {
        return None, failure;
      }
      if records == [] {
        return None, None;
      }
      return Some(records[|records| - 1]), None;
    }
  }

  /** The total encoded size of the records from an index on. */
  method SumSizes(records: seq<Entry>, start: nat) returns (total: nat)
    requires start <= |records|
    ensures total == KeptSize(records[start..])
  {
    total := 0;
    for i := start to |records|
      invariant total + KeptSize(records[i..]) == KeptSize(records[start..])
    {
      assert records[i..][1..] == records[i + 1..];
      total := total + RecordSize(records[i]);
    }
  }

  method WriteRecord(e: Entry) returns (bytes: seq<Byte>)
    ensures bytes == RecordBytes(e)
  {
    bytes := HeaderBytes(Header(MAGIC, VERSION_CHECKSUMMED, 0, e.sequence, |e.payload| % TWO_32));
    bytes := bytes + e.payload;
    var checksum := ComputeChecksum32(e.payload);
    bytes := bytes + ToBytes(checksum, 4);
  }

  method WriteAll(records: seq<Entry>, start: nat) returns (out: seq<Byte>)
    requires start <= |records|
    ensures out == FileBytes(records[start..])
  {
    hide RecordBytes;
    out := [];
    for i := start to |records|
      invariant out + FileBytes(records[i..]) == FileBytes(records[start..])
    {
      var bytes := WriteRecord(records[i]);
      assert records[i..][1..] == records[i + 1..];
      assert out + (bytes + FileBytes(records[i + 1..])) == out + bytes + FileBytes(records[i + 1..]);
      out := out + bytes;
    }
    assert out + [] == out;
  }

  lemma LoadHead(data: seq<Byte>, pos: nat)
    requires pos <= |data|
    ensures match Parse(data[pos..])
            case End => Load(data[pos..]) == Loaded([], None)
            case Failed(reason) => Load(data[pos..]) == Loaded([], Some(reason))
            case Got(e, size) =>
              && 0 < size <= |data| - pos
              && Load(data[pos..]) == Loaded([e] + Load(data[pos + size..]).entries, Load(data[pos + size..]).error)
  {
    hide Parse;
    var here := data[pos..];
    match Parse(here)
    case Got(e, size) =>
      assert here[size..] == data[pos + size..];
    case _ =>
  }

  /** Read records until the file ends or one is refused. */
  method LoadRecords(data: seq<Byte>) returns (records: seq<Entry>, error: Option<Reason>)
    ensures error == Load(data).error
    ensures records == Load(data).entries
  {
    hide Parse, Load;
    records := [];
    var pos := 0;
    assert data[0..] == data;
    while true
      invariant pos <= |data|
      invariant var rest := Load(data[pos..]); Load(data) == Loaded(records + rest.entries, rest.error)
      decreases |data| - pos
    {
      var parsed := Parse(data[pos..]);
      LoadHead(data, pos);
      match parsed
      case End =>
        assert records + [] == records;
        return records, None;
      case Failed(reason) =>
        assert records + [] == records;
        return records, Some(reason);
      case Got(e, size) =>
        ghost var rest := Load(data[pos + size..]);
        assert records + ([e] + rest.entries) == records + [e] + rest.entries;
        records := records + [e];
        pos := pos + size;
    }
  }

  // ----- the bytes of a record, and what else a reader may meet -----

  lemma MagicBytes()
    ensures ToBytes(MAGIC, 4) == [0x4e, 0x53, 0x43, 0x54]
    ensures ToBytes(2, 2) == [2, 0] && ToBytes(0, 2) == [0, 0]
  {
    assert MAGIC == 0x4e + 256 * (0x53 + 256 * (0x43 + 256 * 0x54));
    assert ToBytes(0x54, 1) == [0x54];
    assert ToBytes(0x43 + 256 * 0x54, 2) == [0x43, 0x54];
    assert ToBytes(0x53 + 256 * (0x43 + 256 * 0x54), 3) == [0x53, 0x43, 0x54];
  }

  /** Where each field of a record stands in the file. */
  lemma RecordLayout(e: Entry)
    requires |e.payload| < TWO_32
    ensures var r, end := RecordBytes(e), 16 + |e.payload|;
            && |r| == end + 4
            && r[0..4] == [0x4e, 0x53, 0x43, 0x54] && r[4..6] == [2, 0] && r[6..8] == [0, 0]
            && r[8..12] == ToBytes(e.sequence, 4) && r[12..16] == ToBytes(|e.payload|, 4)
            && r[16..end] == e.payload && r[end..] == ToBytes(Checksum32(e.payload), 4)
  {
    hide ToBytes, Checksum32;
    MagicBytes();
    HeaderLayout(HeaderFor(e));
    hide HeaderBytes;
    var h, r := HeaderBytes(HeaderFor(e)), RecordBytes(e);
    assert r[0..4] == h[0..4] && r[4..6] == h[4..6] && r[6..8] == h[6..8] && r[8..12] == h[8..12] && r[12..16] == h[12..16];
  }

  lemma HeaderLayout(h: Header)
    ensures var r := HeaderBytes(h);
            && r[0..4] == ToBytes(h.magic, 4) && r[4..6] == ToBytes(h.version, 2) && r[6..8] == ToBytes(h.reserved, 2)
            && r[8..12] == ToBytes(h.sequence, 4) && r[12..16] == ToBytes(h.payloadSize, 4)
  {
    hide ToBytes;
  }

  /** A record that ends early is the end of the file while its header is not complete, and an error from then on. */
  lemma TruncatedRecordRefused(e: Entry, n: nat)
    requires |e.payload| < TWO_32 && n < |RecordBytes(e)|
    ensures Parse(RecordBytes(e)[..n])
            == if n < 16 then End else if n < 16 + |e.payload| then Failed(TruncatedPayload) else Failed(TruncatedChecksum)
  {
    hide ToBytes, HeaderBytes, ParseHeader, Checksum32;
    if n >= 16 {
      var tail := (e.payload + ToBytes(Checksum32(e.payload), 4))[..n - 16];
      assert RecordBytes(e)[..n] == HeaderBytes(HeaderFor(e)) + tail;
      HeaderRoundTrip(HeaderFor(e), tail);
    }
  }

  lemma ForeignRecordRefused(h: Header, rest: seq<Byte>)
    requires h.magic != 0x5443534e || (h.version != 1 && h.version != 2)
    ensures Parse(HeaderBytes(h) + rest) == Failed(if h.magic != 0x5443534e then InvalidMagic else UnsupportedVersion)
  {
    hide HeaderBytes, ParseHeader;
    HeaderRoundTrip(h, rest);
  }

  /** A record of version 1 has no checksum: its payload is taken as it is, and the next record follows at once. */
  lemma LegacyRecordRead(sequence: U32, payload: seq<Byte>, rest: seq<Byte>)
    requires |payload| < TWO_32
    ensures var h := Header(0x5443534e, 1, 0, sequence, |payload|);
            Parse(HeaderBytes(h) + payload + rest) == Got(Entry(sequence, payload), 16 + |payload|)
            && (HeaderBytes(h) + payload + rest)[16 + |payload|..] == rest
  {
    hide HeaderBytes, ParseHeader;
    var h := Header(MAGIC, 1, 0, sequence, |payload|);
    assert HeaderBytes(h) + payload + rest == HeaderBytes(h) + (payload + rest);
    HeaderRoundTrip(h, payload + rest);
  }

  /** Persisting behind a damaged record appends all the same; with a limit on, the damage is reported and nothing is compacted. */
  lemma PersistBehindDamage(o: Options, file: seq<Byte>, e: Entry)
    requires Load(file + RecordBytes(e)).error.Some?
    ensures PersistedFile(o, file, e)
            == (file + RecordBytes(e), if o.maxRecords > 0 || o.maxFileBytes > 0 then Load(file + RecordBytes(e)).error else None)
  {
    hide Load, RecordBytes;
  }
}
