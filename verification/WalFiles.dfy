/** The log's reader and writer objects; a file is its sequence of bytes. */
module WalFiles {
  import opened Common
  import opened Checksum
  import opened Wal

  datatype NextResult = EndOfLog | ReadError(reason: Reason) | Delivered(record: Record)

  class Reader {
    const data: seq<Byte>
    var pos: nat

    constructor (file: seq<Byte>)
      ensures Valid() && data == file && pos == 0
    {
      data, pos := file, 0;
    }

    ghost predicate Valid()
      reads this
    {
      pos <= |data|
    }

    method Next() returns (result: NextResult)
      requires Valid()
      modifies this
      ensures Valid()
      ensures match Parse(data[old(pos)..])
              case End => result == EndOfLog && pos == |data|
              case Failed(reason) => result == ReadError(reason)
              case Got(record, size) => result == Delivered(record) && pos == old(pos) + size
    {
      ghost var ahead := data[pos..];
      if |data| - pos < HEADER_SIZE {
        pos := |data|;
        return EndOfLog;
      }
      var header := ParseHeader(data[pos..]);
      pos := pos + HEADER_SIZE;
      if header.magic != MAGIC {
        return ReadError(InvalidMagic);
      }
      var payload: seq<Byte> := [];
      if header.payloadSize > 0 {
        if |data| - pos < header.payloadSize {
          pos := |data|;
          return ReadError(TruncatedRecord);
        }
        payload := data[pos..pos + header.payloadSize];
        pos := pos + header.payloadSize;
        assert payload == ahead[HEADER_SIZE..HEADER_SIZE + header.payloadSize];
        var checksum := ComputeChecksum32(payload);
        if header.checksum != checksum {
          return ReadError(ChecksumMismatch);
        }
      }
      assert payload == ahead[HEADER_SIZE..HEADER_SIZE + header.payloadSize];
      return Delivered(Record(header, payload));
    }

    /** Rewind, read forward, and step back over the first record numbered k or higher. */
    method SeekSequence(k: U64) returns (error: Option<Reason>)
      requires Valid()
      modifies this
      ensures Valid()
      ensures match SeekFrom(data, 0, k)
              case SoughtAt(p) => error == None && pos == p
              case SeekFailed(reason) => error == Some(reason)
    {
      hide Parse;
      pos := 0;
      while true
        invariant pos <= |data| && SeekFrom(data, pos, k) == SeekFrom(data, 0, k)
        decreases |data| - pos
      {
        ghost var here := pos;
        var result := Next();
        match result
        case EndOfLog => return None;
        case ReadError(reason) => return Some(reason);
        case Delivered(record) =>
          if record.header.sequence >= k {
            pos := pos - (HEADER_SIZE + record.header.payloadSize);
            assert pos == here;
            return None;
          }
      }
    }
  }

  class Writer {
    var file: seq<Byte>
    var buffer: seq<Byte>
    const flushThreshold: nat
    var nextSequence: U64

    constructor (contents: seq<Byte>, threshold: nat, sequence: U64)
      ensures State() == WriterState(contents, [], sequence) && flushThreshold == threshold
    {
      file, buffer, flushThreshold, nextSequence := contents, [], threshold, sequence;
    }

    ghost function State(): WriterState
      reads this
    {
      WriterState(file, buffer, nextSequence)
    }

    method Append(entry: Entry)
      modifies this
      ensures State() == Appended(old(State()), flushThreshold, entry)
    {
      hide HeaderBytes;
      var checksum := ComputeChecksum32(entry.payload);
      var header := Header(MAGIC, 1, entry.reserved, nextSequence, |entry.payload| % TWO_32, checksum);
      nextSequence := (nextSequence + 1) % TWO_64;
      buffer := buffer + HeaderBytes(header);
      buffer := buffer + entry.payload;
      assert buffer == old(buffer) + RecordBytes(entry, old(nextSequence));
      if |buffer| >= flushThreshold {
        Flush();
      }
    }

    method Flush()
      modifies this
      ensures State() == Flushed(old(State()))
    {
      if buffer == [] {
        assert file + [] == file;
        return;
      }
      file := file + buffer;
      buffer := [];
    }

    method Sync()
      modifies this
      ensures State() == Flushed(old(State()))
    {
      Flush();
    }
  }

  /** Open a log: read it through to find the next sequence number, or fail where reading fails. */
  method OpenWriter(contents: seq<Byte>, threshold: nat) returns (w: Writer?, error: Option<Reason>)
    ensures error == ScanAll(contents).error && (w == null <==> error.Some?)
    ensures w != null ==> fresh(w) && w.State() == Opened(contents) && w.flushThreshold == threshold
  {
    hide Parse, ScanAll;
    var reader := new Reader(contents);
    var nextSequence: U64 := 1;
    ghost var seen: seq<Record> := [];
    assert contents[0..] == contents;
    while true
      invariant reader.Valid() && reader.data == contents && fresh(reader)
      invariant var rest := ScanAll(contents[reader.pos..]);
                ScanAll(contents) == Scan(seen + rest.records, rest.error)
      invariant nextSequence == if seen == [] then 1 else (seen[|seen| - 1].header.sequence + 1) % TWO_64
      decreases |contents| - reader.pos
    {
      ScanHead(contents, reader.pos);
      var result := reader.Next();
      match result
      case EndOfLog =>
        assert seen + [] == seen;
        w := new Writer(contents, threshold, nextSequence);
        return w, None;
      case ReadError(reason) =>
        return null, Some(reason);
      case Delivered(record) =>
        nextSequence := (record.header.sequence + 1) % TWO_64;
        ghost var rest := ScanAll(contents[reader.pos..]);
        assert seen + ([record] + rest.records) == seen + [record] + rest.records;
        seen := seen + [record];
    }
  }

  /** Closing flushes; opening the file again resumes the same log. */
  method Reopen(w: Writer, threshold: nat, ghost log: seq<Entry>) returns (w': Writer?, error: Option<Reason>)
    requires Holds(w.State(), log)
    modifies w
    ensures error == None && w' != null && w'.State() == WriterStep(old(w.State()), threshold, WriterOp.Reopen)
    ensures Holds(w'.State(), log)
  {
    StepKeepsLog(w.State(), log, threshold, WriterOp.Reopen);
    FlushKeepsLog(w.State(), log);
    RecoveredLog(log);
    w.Flush();
    w', error := OpenWriter(w.file, threshold);
  }
}
