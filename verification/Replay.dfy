/** Replay: restore the latest snapshot, then apply the log records behind it. */
module Replay {
  import opened Common
  import opened Checksum
  import Wal
  import WalFiles
  import Snapshot

  type EventHandler<!S> = (S, Wal.Record) -> S

  type SnapshotHandler<!S> = (U32, seq<Byte>) -> S

  function Fold<S>(state: S, records: seq<Wal.Record>, on: EventHandler<S>): S {
    if records == [] then state else Fold(on(state, records[0]), records[1..], on)
  }

  /** Records numbered below `from` are skipped. */
  function From(records: seq<Wal.Record>, from: nat): seq<Wal.Record> {
    if records == [] then []
    else (if records[0].header.sequence < from then [] else [records[0]]) + From(records[1..], from)
  }

  /** The resume point is a 32-bit number. */
  function ResumeFrom(latest: Option<Snapshot.Entry>): U32 {
    match latest case None => 1 case Some(e) => (e.sequence + 1) % TWO_32
  }

  function Restored<S>(initial: S, latest: Option<Snapshot.Entry>, handler: Option<SnapshotHandler<S>>): S {
    if latest.Some? && handler.Some? then handler.value(latest.value.sequence, latest.value.payload) else initial
  }

  datatype Failure = NoEventHandler | SnapshotFailed(snapshot: Snapshot.Reason) | WalFailed(wal: Wal.Reason)

  datatype Outcome<S> = Outcome(state: S, failure: Option<Failure>)

  function Executed<S>(initial: S, store: Option<seq<Byte>>, wal: Option<seq<Byte>>,
                       onSnapshot: Option<SnapshotHandler<S>>, onEvent: Option<EventHandler<S>>): Outcome<S> {
    if onEvent.None? then Outcome(initial, Some(NoEventHandler))
    else
      var (latest, error) := if store.Some? then Snapshot.Latest(store.value) else (None, None);
      if error.Some? then Outcome(initial, Some(SnapshotFailed(error.value)))
      else
        var state := Restored(initial, latest, onSnapshot);
        if wal.None? then Outcome(state, None)
        else
          var scan := Wal.ScanAll(wal.value);
          Outcome(Fold(state, From(scan.records, ResumeFrom(latest)), onEvent.value),
                  if scan.error.Some? then Some(WalFailed(scan.error.value)) else None)
  }

  lemma {:induction false} FoldAppend<S>(state: S, a: seq<Wal.Record>, b: seq<Wal.Record>, on: EventHandler<S>)
    ensures Fold(state, a + b, on) == Fold(Fold(state, a, on), b, on)
    decreases |a|
  {
    if a == [] {
      assert a + b == b;
    } else {
      assert (a + b)[1..] == a[1..] + b;
      FoldAppend(on(state, a[0]), a[1..], b, on);
    }
  }

  lemma FromCons(records: seq<Wal.Record>, from: nat)
    requires records != []
    ensures From(records, from)
            == if records[0].header.sequence < from then From(records[1..], from) else [records[0]] + From(records[1..], from)
  {
    assert [] + From(records[1..], from) == From(records[1..], from);
  }

  /** The records carry consecutive numbers. */
  ghost predicate Numbered(records: seq<Wal.Record>, first: nat) {
    forall i :: 0 <= i < |records| ==> records[i].header.sequence == first + i
  }

  lemma NumberedTail(records: seq<Wal.Record>, first: nat)
    requires Numbered(records, first) && records != []
    ensures records[0].header.sequence == first && Numbered(records[1..], first + 1)
  {
  }

  lemma {:induction false} FromKeepsAll(records: seq<Wal.Record>, first: nat, from: nat)
    requires Numbered(records, first) && from <= first
    ensures From(records, from) == records
    decreases |records|
  {
    hide Numbered;
    if records != [] {
      hide From;
      NumberedTail(records, first);
      FromKeepsAll(records[1..], first + 1, from);
      FromCons(records, from);
      assert [records[0]] + records[1..] == records;
    }
  }

  /** In a log numbered from `first`, skipping what is below `from` drops a prefix. */
  lemma {:induction false} FromDropsPrefix(records: seq<Wal.Record>, first: nat, from: nat)
    requires Numbered(records, first)
    ensures From(records, from) == records[if from <= first then 0 else Min(from - first, |records|)..]
    decreases |records|
  {
    hide Numbered;
    if from <= first {
      FromKeepsAll(records, first, from);
    } else if records != [] {
      hide From;
      NumberedTail(records, first);
      FromDropsPrefix(records[1..], first + 1, from);
      FromCons(records, from);
      if from > first + 1 {
        assert records[1..][Min(from - first - 1, |records| - 1)..] == records[Min(from - first, |records|)..];
      }
    }
  }

  lemma LogNumbers(log: seq<Wal.Entry>)
    requires Wal.Fits(log, 1)
    ensures |Wal.LogRecords(log, 1)| == |log|
    ensures Numbered(Wal.LogRecords(log, 1), 1)
  {
  }

  /** Exactly which part of the log is applied on top of a snapshot. */
  lemma ReplayedPart<S>(initial: S, e: Snapshot.Entry, store: seq<Byte>, log: seq<Wal.Entry>,
                        onSnapshot: SnapshotHandler<S>, onEvent: EventHandler<S>)
    requires Snapshot.Latest(store) == (Some(e), None) && Wal.Fits(log, 1) && e.sequence <= |log|
    ensures var part := if e.sequence == TWO_32 - 1 then Wal.LogRecords(log, 1) else Wal.LogRecords(log, 1)[e.sequence..];
            Executed(initial, Some(store), Some(Wal.LogBytes(log, 1)), Some(onSnapshot), Some(onEvent))
            == Outcome(Fold(onSnapshot(e.sequence, e.payload), part, onEvent), None)
  {
    hide Wal.ScanAll, Wal.LogBytes, Wal.LogRecords, Wal.RecordFor, Snapshot.Latest, Fold, From;
    Wal.RecoveredLog(log);
    LogNumbers(log);
    PartBehind(Wal.LogRecords(log, 1), e.sequence);
    assert ResumeFrom(Some(e)) == (e.sequence + 1) % TWO_32;
  }

  /** A handler that counts events, and one that starts counting from the snapshot's number. */
  function CountEvents(): EventHandler<nat> {
    (n: nat, record: Wal.Record) => n + 1
  }

  function CountFromSnapshot(): SnapshotHandler<nat> {
    (sequence: U32, payload: seq<Byte>) => sequence
  }

  lemma {:induction false} FoldCounts(n: nat, records: seq<Wal.Record>)
    ensures Fold(n, records, CountEvents()) == n + |records|
    decreases |records|
  {
    if records != [] {
      FoldCounts(n + 1, records[1..]);
    }
  }

  /** Counting events over a snapshot gives the length of the log exactly when the snapshot's number is not the last 32-bit one. */
  lemma WrappedResumeCountsTwice(e: Snapshot.Entry, store: seq<Byte>, log: seq<Wal.Entry>)
    requires Snapshot.Latest(store) == (Some(e), None) && Wal.Fits(log, 1) && e.sequence <= |log|
    ensures var state := Executed(0, Some(store), Some(Wal.LogBytes(log, 1)), Some(CountFromSnapshot()), Some(CountEvents())).state;
            && (state == |log| <==> e.sequence != TWO_32 - 1)
            && (e.sequence == TWO_32 - 1 ==> state == TWO_32 - 1 + |log|)
  {
    hide Executed, Wal.LogBytes, Wal.LogRecords, Snapshot.Latest, Fold;
    LogNumbers(log);
    ReplayedPart(0, e, store, log, CountFromSnapshot(), CountEvents());
    FoldCounts(e.sequence, Wal.LogRecords(log, 1));
    FoldCounts(e.sequence, Wal.LogRecords(log, 1)[e.sequence..]);
  }

  lemma PartBehind(records: seq<Wal.Record>, s: U32)
    requires Numbered(records, 1) && s <= |records|
    ensures From(records, (s + 1) % TWO_32) == if s == TWO_32 - 1 then records else records[s..]
  {
    hide From;
    FromDropsPrefix(records, 1, (s + 1) % TWO_32);
    if s == TWO_32 - 1 {
      assert records[0..] == records;
    }
  }

  /**
   A snapshot plus the log behind it is the whole log: however many snapshots
   were persisted before and however the store was compacted, replay ends in
   the state of folding every record from the start.
   */
  lemma SnapshotPlusSuffixIsFullReplay<S>(initial: S, o: Snapshot.Options, history: seq<Snapshot.Entry>, log: seq<Wal.Entry>,
                                          onSnapshot: SnapshotHandler<S>, onEvent: EventHandler<S>)
    requires history != [] && Snapshot.Fits(history) && Wal.Fits(log, 1)
    requires var e := history[|history| - 1];
             && e.sequence <= |log| && e.sequence < TWO_32 - 1
             && onSnapshot(e.sequence, e.payload) == Fold(initial, Wal.LogRecords(log, 1)[..e.sequence], onEvent)
    ensures Executed(initial, Some(Snapshot.PersistAll(o, history).0), Some(Wal.LogBytes(log, 1)), Some(onSnapshot), Some(onEvent))
            == Outcome(Fold(initial, Wal.LogRecords(log, 1), onEvent), None)
  {
    hide Executed, Wal.LogBytes, Wal.LogRecords, Wal.RecordFor, Snapshot.Latest, Snapshot.PersistAll, Snapshot.BestSuffix, Fold, From;
    var e, records := history[|history| - 1], Wal.LogRecords(log, 1);
    var k := Snapshot.HistoryKeepsBestSuffix(o, history);
    ReplayedPart(initial, e, Snapshot.PersistAll(o, history).0, log, onSnapshot, onEvent);
    assert records == records[..e.sequence] + records[e.sequence..];
    FoldAppend(initial, records[..e.sequence], records[e.sequence..], onEvent);
  }

  /** Without a snapshot the whole log is applied. */
  lemma NoSnapshotIsFullReplay<S>(initial: S, log: seq<Wal.Entry>, onSnapshot: Option<SnapshotHandler<S>>, onEvent: EventHandler<S>)
    requires Wal.Fits(log, 1)
    ensures Executed(initial, None, Some(Wal.LogBytes(log, 1)), onSnapshot, Some(onEvent))
            == Outcome(Fold(initial, Wal.LogRecords(log, 1), onEvent), None)
  {
    Wal.RecoveredLog(log);
    FromDropsPrefix(Wal.LogRecords(log, 1), 1, 1);
  }

  /** `Driver::execute`: read the snapshot, then run the reader over the log. */
  method Execute<S>(initial: S, store: Snapshot.Store, wal: Option<seq<Byte>>,
                    onSnapshot: Option<SnapshotHandler<S>>, onEvent: Option<EventHandler<S>>) returns (outcome: Outcome<S>)
    ensures outcome == Executed(initial, if store.directorySet then store.file else None, wal, onSnapshot, onEvent)
  {
    hide Wal.Parse, Snapshot.Load, Snapshot.Latest;
    if onEvent.None? {
      return Outcome(initial, Some(NoEventHandler));
    }
    var state, resumeFrom: U32 := initial, 1;
    var latest, error := store.Read();
    if error.Some? {
      return Outcome(initial, Some(SnapshotFailed(error.value)));
    }
    if latest.Some? {
      resumeFrom := (latest.value.sequence + 1) % TWO_32;
      if onSnapshot.Some? {
        state := onSnapshot.value(latest.value.sequence, latest.value.payload);
      }
    }
    if wal.None? {
      return Outcome(state, None);
    }
    outcome := ReplayLog(state, wal.value, resumeFrom, onEvent.value);
  }

  method ReplayLog<S>(start: S, data: seq<Byte>, resumeFrom: U32, onEvent: EventHandler<S>) returns (outcome: Outcome<S>)
    ensures var scan := Wal.ScanAll(data);
            outcome == Outcome(Fold(start, From(scan.records, resumeFrom), onEvent),
                               if scan.error.Some? then Some(WalFailed(scan.error.value)) else None)
  {
    hide Wal.Parse, Wal.ScanAll, Fold, From;
    var reader := new WalFiles.Reader(data);
    var state := start;
    ghost var goal := Wal.ScanAll(data);
    assert data[0..] == data;
    while true
      invariant reader.Valid() && reader.data == data && fresh(reader)
      invariant Wal.ScanAll(data[reader.pos..]).error == goal.error
      invariant Fold(state, From(Wal.ScanAll(data[reader.pos..]).records, resumeFrom), onEvent)
                == Fold(start, From(goal.records, resumeFrom), onEvent)
      decreases |data| - reader.pos
    {
      Wal.ScanHead(data, reader.pos);
      FoldNothing(state, resumeFrom, onEvent);
      var result := reader.Next();
      match result
      case EndOfLog =>
        return Outcome(state, None);
      case ReadError(reason) =>
        return Outcome(state, Some(WalFailed(reason)));
      case Delivered(record) =>
        ghost var rest := Wal.ScanAll(data[reader.pos..]).records;
        FoldHead(state, record, rest, resumeFrom, onEvent);
        if record.header.sequence >= resumeFrom {
          state := onEvent(state, record);
        }
    }
  }

  lemma FoldNothing<S>(state: S, from: nat, on: EventHandler<S>)
    ensures Fold(state, From([], from), on) == state
  {
  }

  lemma FoldHead<S>(state: S, record: Wal.Record, rest: seq<Wal.Record>, from: nat, on: EventHandler<S>)
    ensures Fold(state, From([record] + rest, from), on)
            == Fold(if record.header.sequence >= from then on(state, record) else state, From(rest, from), on)
  {
    assert ([record] + rest)[1..] == rest;
    if record.header.sequence < from {
      assert [] + From(rest, from) == From(rest, from);
    } else {
      assert ([record] + From(rest, from))[1..] == From(rest, from);
    }
  }

  // ----- when something is missing or damaged -----

  /** Without a log only the snapshot is restored, and without a handler for it not even that. */
  lemma ReplayWithoutLog<S>(initial: S, e: Snapshot.Entry, store: seq<Byte>, onSnapshot: Option<SnapshotHandler<S>>, onEvent: EventHandler<S>)
    requires Snapshot.Latest(store) == (Some(e), None)
    ensures Executed(initial, Some(store), None, onSnapshot, Some(onEvent))
            == Outcome(if onSnapshot.Some? then onSnapshot.value(e.sequence, e.payload) else initial, None)
    ensures Executed(initial, None, None, onSnapshot, Some(onEvent)) == Outcome(initial, None)
  {
    hide Snapshot.Latest;
  }

  /** Without an event handler nothing is read, and behind a snapshot that cannot be read nothing is applied. */
  lemma ReplayRefuses<S>(initial: S, store: Option<seq<Byte>>, wal: Option<seq<Byte>>, reason: Snapshot.Reason,
                         onSnapshot: Option<SnapshotHandler<S>>, onEvent: EventHandler<S>)
    ensures Executed(initial, store, wal, onSnapshot, None) == Outcome(initial, Some(NoEventHandler))
    ensures store.Some? && Snapshot.Latest(store.value).1 == Some(reason) ==>
              Executed(initial, store, wal, onSnapshot, Some(onEvent)) == Outcome(initial, Some(SnapshotFailed(reason)))
  {
    hide Snapshot.Latest, Wal.ScanAll, Fold, From;
  }

  /** A log with an altered record is replayed up to that record, and then fails. */
  lemma ReplayStopsAtDamage<S>(initial: S, before: seq<Wal.Entry>, e: Wal.Entry, k: nat, b: Byte, rest: seq<Byte>,
                               onSnapshot: Option<SnapshotHandler<S>>, onEvent: EventHandler<S>)
    requires Wal.Fits(before + [e], 1) && k < |e.payload| && e.payload[k] != b
    ensures var damaged := Wal.HeaderBytes(Wal.HeaderFor(e, 1 + |before|)) + e.payload[k := b] + rest;
            Executed(initial, None, Some(Wal.LogBytes(before, 1) + damaged), onSnapshot, Some(onEvent))
            == Outcome(Fold(initial, Wal.LogRecords(before, 1), onEvent), Some(WalFailed(Wal.ChecksumMismatch)))
  {
    hide Wal.ScanAll, Wal.LogBytes, Wal.HeaderBytes, Wal.HeaderFor, Fold;
    assert forall i :: 0 <= i < |before| ==> (before + [e])[i] == before[i];
    Wal.AlteredLogStopsThere(before, e, k, b, rest);
    LogNumbers(before);
    FromDropsPrefix(Wal.LogRecords(before, 1), 1, 1);
    assert Wal.LogRecords(before, 1)[0..] == Wal.LogRecords(before, 1);
  }
}
