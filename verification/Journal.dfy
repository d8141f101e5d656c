/**
 The daemon's journal: every frame is appended to the write-ahead log before it
 is handled, so the log holds all it takes to rebuild the daemon's state.
 */
module Journal {
  import opened Common
  import opened Checksum
  import opened Daemon
  import opened Frames
  import Wal
  import Replay

  // ----- the journal record of a frame -----

  function KindByte(kind: Kind): Byte {
    match kind case NewOrder => 0 case Cancel => 1 case Replace => 2 case Heartbeat => 3
  }

  function KindOf(b: Byte): Option<Kind> {
    if b == 0 then Some(NewOrder) else if b == 1 then Some(Cancel)
    else if b == 2 then Some(Replace) else if b == 3 then Some(Heartbeat) else None
  }

  function Unsigned(x: I64): U64 {
    if x < 0 then x + 0x1_0000_0000_0000_0000 else x
  }

  function Signed(x: U64): I64 {
    if x >= 0x8000_0000_0000_0000 then x - 0x1_0000_0000_0000_0000 else x
  }

  /** `build_wal_payload`: kind, account, nonce, arrival time, then the frame's own payload. */
  function BuildPayload(f: Frame): seq<Byte> {
    [KindByte(f.kind)] + ToBytes(f.account, 8) + ToBytes(f.nonce, 8) + ToBytes(Unsigned(f.receivedTime), 8) + f.payload
  }

  function ReadPayload(s: seq<Byte>): Option<Frame> {
    if |s| < 25 || KindOf(s[0]).None? then None
    else
      Some(Frame(KindOf(s[0]).value, Wal.FieldU64(s[1..9]), Wal.FieldU64(s[9..17]), Signed(Wal.FieldU64(s[17..25])), s[25..]))
  }

  /** A journal record gives back the frame it was built from. */
  lemma PayloadRoundTrip(f: Frame)
    ensures ReadPayload(BuildPayload(f)) == Some(f)
  {
    hide ToBytes, FromBytes, Power256;
    var s := BuildPayload(f);
    Widths();
    assert s[1..9] == ToBytes(f.account, 8);
    assert s[9..17] == ToBytes(f.nonce, 8);
    assert s[17..25] == ToBytes(Unsigned(f.receivedTime), 8);
    assert s[25..] == f.payload;
    BytesRoundTrip(f.account, 8);
    BytesRoundTrip(f.nonce, 8);
    BytesRoundTrip(Unsigned(f.receivedTime), 8);
  }

  // ----- handling frames -----

  datatype NewOrderFields = NewOrderFields(side: Side, quantity: int, price: int, flags: Flags)

  datatype ReplaceFields = ReplaceFields(orderId: U64, newQuantity: int, newPrice: int, newFlags: Flags)

  /** The message decoders; each yields nothing when a payload is malformed. */
  datatype Codec = Codec(
    newOrder: seq<Byte> -> Option<NewOrderFields>, cancel: seq<Byte> -> Option<U64>, amend: seq<Byte> -> Option<ReplaceFields>)

  function MessageOf(codec: Codec, f: Frame): Option<Message> {
    match f.kind
    case NewOrder =>
      (match codec.newOrder(f.payload)
       case None => None
       case Some(x) => Some(Placing(NewOrderMessage(f.account, f.nonce, x.side, x.quantity, x.price, x.flags))))
    case Cancel =>
      (match codec.cancel(f.payload)
       case None => None
       case Some(orderId) => Some(Withdrawing(orderId)))
    case Replace =>
      (match codec.amend(f.payload)
       case None => None
       case Some(x) => Some(Amending(ReplaceMessage(f.account, x.orderId, x.newQuantity, x.newPrice, x.newFlags))))
    case Heartbeat => None
  }

  ghost function HandleFrame(codec: Codec, d: State, market: U16, f: Frame): State {
    match MessageOf(codec, f)
    case None => d
    case Some(msg) => Handle(d, market, msg)
  }

  ghost function HandleFrames(codec: Codec, d: State, market: U16, frames: seq<Frame>): State {
    if frames == [] then d
    else HandleFrame(codec, HandleFrames(codec, d, market, frames[..|frames| - 1]), market, frames[|frames| - 1])
  }

  /** The messages of the frames that decode, in order. */
  function Messages(codec: Codec, frames: seq<Frame>): seq<Message> {
    if frames == [] then []
    else
      Messages(codec, frames[..|frames| - 1]) +
      match MessageOf(codec, frames[|frames| - 1])
      case None => []
      case Some(msg) => [msg]
  }

  /** Handling frames is the run of the messages that decode, so every result about runs holds of frames. */
  lemma {:induction false} FramesAreARun(codec: Codec, d: State, market: U16, frames: seq<Frame>)
    ensures HandleFrames(codec, d, market, frames) == RunDaemon(d, market, Messages(codec, frames))
  {
    hide Handle, MessageOf;
    if frames != [] {
      var before := frames[..|frames| - 1];
      FramesAreARun(codec, d, market, before);
      var msgs := Messages(codec, before);
      match MessageOf(codec, frames[|frames| - 1])
      case None => assert msgs + [] == msgs;
      case Some(msg) => assert (msgs + [msg])[..|msgs|] == msgs;
    }
  }

  lemma HandleOneMore(codec: Codec, d: State, market: U16, frames: seq<Frame>, f: Frame)
    ensures HandleFrames(codec, d, market, frames + [f]) == HandleFrame(codec, HandleFrames(codec, d, market, frames), market, f)
  {
    assert (frames + [f])[..|frames|] == frames;
  }

  lemma {:induction false} HandleAppend(codec: Codec, d: State, market: U16, a: seq<Frame>, b: seq<Frame>)
    ensures HandleFrames(codec, HandleFrames(codec, d, market, a), market, b) == HandleFrames(codec, d, market, a + b)
    decreases |b|
  {
    hide HandleFrame;
    if b == [] {
      assert a + b == a;
    } else {
      var before := b[..|b| - 1];
      HandleAppend(codec, d, market, a, before);
      HandleOneMore(codec, d, market, a + before, b[|b| - 1]);
      assert a + before + [b[|b| - 1]] == a + b;
    }
  }

  // ----- the log of frames -----

  function EntryOf(f: Frame): Wal.Entry {
    Wal.Entry(0, BuildPayload(f))
  }

  function Entries(frames: seq<Frame>): (r: seq<Wal.Entry>)
    ensures |r| == |frames|
    ensures forall i :: 0 <= i < |r| ==> r[i] == EntryOf(frames[i])
  {
    seq(|frames|, i requires 0 <= i < |frames| => EntryOf(frames[i]))
  }

  /** The writer after appending some frames one by one. */
  function Journaled(w: Wal.WriterState, threshold: nat, frames: seq<Frame>): Wal.WriterState {
    if frames == [] then w
    else Wal.Appended(Journaled(w, threshold, frames[..|frames| - 1]), threshold, EntryOf(frames[|frames| - 1]))
  }

  lemma JournalOneMore(w: Wal.WriterState, threshold: nat, frames: seq<Frame>, f: Frame)
    ensures Journaled(w, threshold, frames + [f]) == Wal.Appended(Journaled(w, threshold, frames), threshold, EntryOf(f))
  {
    assert (frames + [f])[..|frames|] == frames;
  }

  lemma {:induction false} JournalAppend(w: Wal.WriterState, threshold: nat, a: seq<Frame>, b: seq<Frame>)
    ensures Journaled(Journaled(w, threshold, a), threshold, b) == Journaled(w, threshold, a + b)
    decreases |b|
  {
    hide Wal.Appended, EntryOf;
    if b == [] {
      assert a + b == a;
    } else {
      var before := b[..|b| - 1];
      JournalAppend(w, threshold, a, before);
      JournalOneMore(w, threshold, a + before, b[|b| - 1]);
      assert a + before + [b[|b| - 1]] == a + b;
    }
  }

  /** Journaling adds exactly the frames' entries to the log that the writer holds. */
  lemma {:induction false} JournaledHolds(w: Wal.WriterState, log: seq<Wal.Entry>, threshold: nat, frames: seq<Frame>)
    requires Wal.Holds(w, log) && Wal.Fits(log + Entries(frames), 1)
    ensures Wal.Holds(Journaled(w, threshold, frames), log + Entries(frames))
    decreases |frames|
  {
    hide Wal.Holds, Wal.Appended, EntryOf;
    if frames == [] {
      assert log + Entries(frames) == log;
    } else {
      var before, f := frames[..|frames| - 1], frames[|frames| - 1];
      assert log + Entries(frames) == (log + Entries(before)) + [EntryOf(f)];
      FitsLess(log + Entries(before), EntryOf(f));
      JournaledHolds(w, log, threshold, before);
      Wal.StepKeepsLog(Journaled(w, threshold, before), log + Entries(before), threshold, Wal.Append(EntryOf(f)));
    }
  }

  lemma FitsLess(log: seq<Wal.Entry>, e: Wal.Entry)
    requires Wal.Fits(log + [e], 1)
    ensures Wal.Fits(log, 1)
  {
    assert forall i :: 0 <= i < |log| ==> (log + [e])[i] == log[i];
  }

  // ----- rebuilding -----

  /** Handle the frame that a log record holds. */
  ghost function HandleRecord(codec: Codec, market: U16, d: State, record: Wal.Record): State {
    match ReadPayload(record.payload)
    case None => d
    case Some(f) => HandleFrame(codec, d, market, f)
  }

  ghost function Rebuild(codec: Codec, market: U16): Replay.EventHandler<State> {
    (d: State, record: Wal.Record) => HandleRecord(codec, market, d, record)
  }

  /** Folding the records of a journal is handling its frames. */
  lemma {:induction false} FoldRebuilds(codec: Codec, d: State, market: U16, frames: seq<Frame>, first: nat)
    requires Wal.Fits(Entries(frames), first)
    ensures Replay.Fold(d, Wal.LogRecords(Entries(frames), first), Rebuild(codec, market)) == HandleFrames(codec, d, market, frames)
    decreases |frames|
  {
    hide HandleFrame, HandleFrames, HandleRecord, Replay.Fold, Wal.LogRecords, Wal.RecordFor, Entries, EntryOf, Rebuild, Wal.Fits;
    if frames == [] {
      FoldNone(codec, d, market, first);
    } else {
      var f, rest := frames[0], frames[1..];
      var d' := HandleFrame(codec, d, market, f);
      EntriesCons(frames);
      FitsTail(Entries(frames), first);
      FoldRebuilds(codec, d', market, rest, first + 1);
      FoldOne(codec, d, market, Entries(frames), first);
      RecordHandled(codec, d, market, f, first);
      HandleFirst(codec, d, market, f);
      HandleAppend(codec, d, market, [f], rest);
      assert [f] + rest == frames;
    }
  }

  lemma FoldNone(codec: Codec, d: State, market: U16, first: nat)
    requires Wal.Fits(Entries([]), first)
    ensures Replay.Fold(d, Wal.LogRecords(Entries([]), first), Rebuild(codec, market)) == d == HandleFrames(codec, d, market, [])
  {
  }

  lemma EntriesCons(frames: seq<Frame>)
    requires frames != []
    ensures Entries(frames)[0] == EntryOf(frames[0]) && Entries(frames)[1..] == Entries(frames[1..])
  {
  }

  lemma FitsTail(entries: seq<Wal.Entry>, first: nat)
    requires Wal.Fits(entries, first) && entries != []
    ensures Wal.Fits(entries[1..], first + 1)
  {
  }

  lemma HandleFirst(codec: Codec, d: State, market: U16, f: Frame)
    ensures HandleFrames(codec, d, market, [f]) == HandleFrame(codec, d, market, f)
  {
    hide HandleFrame;
    assert [f][..0] == [];
  }

  lemma RecordHandled(codec: Codec, d: State, market: U16, f: Frame, sequence: U64)
    ensures HandleRecord(codec, market, d, Wal.RecordFor(EntryOf(f), sequence)) == HandleFrame(codec, d, market, f)
  {
    hide HandleFrame, ReadPayload, BuildPayload;
    PayloadRoundTrip(f);
  }

  lemma FoldOne(codec: Codec, d: State, market: U16, entries: seq<Wal.Entry>, first: nat)
    requires entries != [] && Wal.Fits(entries, first)
    ensures Replay.Fold(d, Wal.LogRecords(entries, first), Rebuild(codec, market))
            == Replay.Fold(HandleRecord(codec, market, d, Wal.RecordFor(entries[0], first)),
                           Wal.LogRecords(entries[1..], first + 1), Rebuild(codec, market))
  {
    hide HandleRecord, Wal.RecordFor;
    assert Wal.LogRecords(entries, first)[1..] == Wal.LogRecords(entries[1..], first + 1);
  }

  /**
   Under every schedule of appends, flushes, syncs and reopenings that journals
   some frames in order, replaying the flushed file ends in the state of the
   daemon that handled those frames.
   */
  lemma ReplayRebuildsDaemon(codec: Codec, d: State, market: U16, frames: seq<Frame>, threshold: nat, ops: seq<Wal.WriterOp>)
    requires Wal.LogAfterAll([], ops) == Entries(frames) && Wal.Fits(Entries(frames), 1)
    ensures var file := Wal.Flushed(Wal.WriterRun(Wal.Opened([]), threshold, ops)).file;
            Replay.Executed(d, None, Some(file), None, Some(Rebuild(codec, market)))
            == Replay.Outcome(HandleFrames(codec, d, market, frames), None)
  {
    hide Wal.Holds, Wal.WriterRun, Wal.LogAfterAll, Replay.Executed, Replay.Fold, Wal.LogRecords, Wal.LogBytes, Wal.ScanAll,
      HandleFrames, Wal.Flushed, Wal.Opened, Rebuild;
    Wal.NewFileHoldsNothing();
    Wal.AnyScheduleKeepsLog(Wal.Opened([]), [], threshold, ops);
    FlushedHolds(Wal.WriterRun(Wal.Opened([]), threshold, ops), Entries(frames));
    Replay.NoSnapshotIsFullReplay(d, Entries(frames), None, Rebuild(codec, market));
    FoldRebuilds(codec, d, market, frames, 1);
  }

  lemma FlushedHolds(w: Wal.WriterState, log: seq<Wal.Entry>)
    requires Wal.Holds(w, log)
    ensures Wal.Fits(log, 1) && Wal.Flushed(w).file == Wal.LogBytes(log, 1)
  {
    Wal.FlushKeepsLog(w, log);
  }

  /** The same of a log that is journaled frame by frame, as the daemon does, in a new file. */
  lemma JournalRebuildsDaemon(codec: Codec, d: State, market: U16, frames: seq<Frame>, threshold: nat)
    requires Wal.Fits(Entries(frames), 1)
    ensures Replay.Executed(d, None, Some(Wal.Flushed(Journaled(Wal.Opened([]), threshold, frames)).file), None, Some(Rebuild(codec, market)))
            == Replay.Outcome(RunDaemon(d, market, Messages(codec, frames)), None)
  {
    hide Wal.Holds, Replay.Executed, Replay.Fold, Wal.LogRecords, Wal.LogBytes, Wal.ScanAll, HandleFrames, Journaled,
      Wal.Flushed, Wal.Opened, Rebuild, Messages, RunDaemon;
    Wal.NewFileHoldsNothing();
    assert [] + Entries(frames) == Entries(frames);
    JournaledHolds(Wal.Opened([]), [], threshold, frames);
    FlushedHolds(Journaled(Wal.Opened([]), threshold, frames), Entries(frames));
    Replay.NoSnapshotIsFullReplay(d, Entries(frames), None, Rebuild(codec, market));
    FoldRebuilds(codec, d, market, frames, 1);
    FramesAreARun(codec, d, market, frames);
  }

  /** Where each part of a frame stands in its journal record. */
  lemma PayloadLayout(f: Frame)
    ensures var s := BuildPayload(f);
            && s[0] == (match f.kind case NewOrder => 0 case Cancel => 1 case Replace => 2 case Heartbeat => 3)
            && s[1..9] == ToBytes(f.account, 8) && s[9..17] == ToBytes(f.nonce, 8)
            && s[17..25] == ToBytes(if f.receivedTime < 0 then f.receivedTime + 0x1_0000_0000_0000_0000 else f.receivedTime, 8)
            && s[25..] == f.payload
  {
    hide ToBytes;
  }

  /** A message carries its frame's own account and nonce, and the decoded fields. */
  lemma MessageFields(codec: Codec, f: Frame)
    ensures match MessageOf(codec, f)
            case None =>
              || f.kind.Heartbeat? || (f.kind.NewOrder? && codec.newOrder(f.payload).None?)
              || (f.kind.Cancel? && codec.cancel(f.payload).None?) || (f.kind.Replace? && codec.amend(f.payload).None?)
            case Some(msg) =>
              match msg
              case Placing(m) =>
                && f.kind.NewOrder? && m.account == f.account && m.nonce == f.nonce
                && codec.newOrder(f.payload) == Some(NewOrderFields(m.side, m.quantity, m.price, m.flags))
              case Withdrawing(orderId) => f.kind.Cancel? && codec.cancel(f.payload) == Some(orderId)
              case Amending(m) =>
                && f.kind.Replace? && m.account == f.account
                && codec.amend(f.payload) == Some(ReplaceFields(m.orderId, m.newQuantity, m.newPrice, m.newFlags))
  {
  }
}
