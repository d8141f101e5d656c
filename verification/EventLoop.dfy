/** The event loop: the live ingress pipeline feeds the live daemon, lane by lane, turn by turn. */
module EventLoop {
  import opened Daemon
  import opened Journal
  import opened DaemonProcess
  import opened Frames
  import Ingress
  import Intake
  import Wal
  import Common

  class Node {
    const ingress: Ingress.IngressPipeline
    const process: Process

    constructor (pipeline: Ingress.IngressPipeline, daemon: Process)
      requires pipeline.Valid() && Intake.LanesOk(pipeline.State()) && daemon.Valid() && pipeline.Repr() !! daemon.Repr()
      ensures Valid() && ingress == pipeline && process == daemon
    {
      ingress, process := pipeline, daemon;
    }

    ghost function Repr(): set<object>
      reads ingress, process.matcher
    {
      ingress.Repr() + process.Repr()
    }

    ghost predicate Valid()
      reads Repr()
    {
      && ingress.Valid() && Intake.LanesOk(ingress.State())
      && process.Valid() && ingress.Repr() !! process.Repr()
    }

    /** The pipeline's configuration and verifier, which the loop leaves alone. */
    ghost function Settings(): (Ingress.Config, Frame -> bool)
      reads ingress
    {
      (ingress.config, ingress.verifier)
    }

    /** Nothing but new objects has joined the daemon, and the pipeline is the one it was. */
    twostate predicate Kept()
      reads ingress, process.matcher
    {
      && Settings() == old(Settings()) && ingress.Repr() == old(ingress.Repr())
      && forall o :: o in process.Repr() ==> o in old(process.Repr()) || fresh(o)
    }

    /** One turn of a drain loop: take the front of a lane, log it, and handle it if it decodes. */
    method HandleNext(kind: Kind) returns (found: bool)
      requires Valid() && !kind.Heartbeat?
      modifies Repr()
      ensures Valid() && Kept()
      ensures var lane := Ingress.Lane(old(ingress.State()), kind);
              && (found <==> lane != [])
              && ingress.State() == (if found then Ingress.WithLane(old(ingress.State()), kind, lane[1..]) else old(ingress.State()))
              && process.State() == (if found then HandleFrame(process.codec, old(process.State()), process.defaultMarket, lane[0])
                                     else old(process.State()))
              && process.Log() == (if found then Wal.Appended(old(process.Log()), process.wal.flushThreshold, EntryOf(lane[0]))
                                   else old(process.Log()))
    {
      hide Ingress.IngressPipeline.Valid, Process.Valid, HandleFrame, Wal.Appended, EntryOf, Ingress.Lane, Ingress.WithLane, Intake.LanesOk;
      Intake.FrontOfLane(ingress.State(), kind);
      var next := ingress.Drain(kind);
      if next.None? {
        return false;
      }
      process.LogFrame(next.value);
      return true;
    }

    /** Drain a lane; frames that do not decode are logged, counted and skipped. */
    method DrainLane(kind: Kind) returns (processed: nat)
      requires Valid() && !kind.Heartbeat?
      modifies Repr()
      ensures Valid() && Kept()
      ensures var lane := Ingress.Lane(old(ingress.State()), kind);
              && processed == |lane| && ingress.State() == Ingress.WithLane(old(ingress.State()), kind, [])
              && process.State() == HandleFrames(process.codec, old(process.State()), process.defaultMarket, lane)
              && process.Log() == Journaled(old(process.Log()), process.wal.flushThreshold, lane)
    {
      hide Ingress.IngressPipeline.Valid, Process.Valid, HandleFrame, HandleFrames, Wal.Appended, EntryOf, Journaled, Intake.LanesOk,
        Ingress.Lane, Ingress.WithLane;
      ghost var p, before, log, lane := ingress.State(), process.State(), process.Log(), Ingress.Lane(ingress.State(), kind);
      LoopStarts(process.codec, before, process.defaultMarket, log, process.wal.flushThreshold);
      LaneRewritten(p, kind);
      processed := 0;
      while true
        invariant processed <= |lane| && Valid() && Kept()
        invariant ingress.State() == Ingress.WithLane(p, kind, lane[processed..])
        invariant process.State() == HandleFrames(process.codec, before, process.defaultMarket, lane[..processed])
        invariant process.Log() == Journaled(log, process.wal.flushThreshold, lane[..processed])
        decreases |lane| - processed
      {
        DrainStep(process.codec, before, process.defaultMarket, log, process.wal.flushThreshold, p, kind, processed);
        var found := HandleNext(kind);
        if !found {
          break;
        }
        processed := processed + 1;
      }
      assert lane[..|lane|] == lane;
    }

    /** `process_new_orders`. */
    method ProcessNewOrders() returns (processed: nat)
      requires Valid()
      modifies Repr()
      ensures Valid() && Kept() && processed == |old(ingress.State()).newOrders|
      ensures ingress.State() == old(ingress.State()).(newOrders := [])
      ensures process.State() == HandleFrames(process.codec, old(process.State()), process.defaultMarket, old(ingress.State()).newOrders)
      ensures process.Log() == Journaled(old(process.Log()), process.wal.flushThreshold, old(ingress.State()).newOrders)
    {
      hide Ingress.IngressPipeline.Valid, Process.Valid, HandleFrames, Journaled, Intake.LanesOk;
      processed := DrainLane(NewOrder);
    }

    /** `process_cancels`. */
    method ProcessCancels() returns (processed: nat)
      requires Valid()
      modifies Repr()
      ensures Valid() && Kept() && processed == |old(ingress.State()).cancels|
      ensures ingress.State() == old(ingress.State()).(cancels := [])
      ensures process.State() == HandleFrames(process.codec, old(process.State()), process.defaultMarket, old(ingress.State()).cancels)
      ensures process.Log() == Journaled(old(process.Log()), process.wal.flushThreshold, old(ingress.State()).cancels)
    {
      hide Ingress.IngressPipeline.Valid, Process.Valid, HandleFrames, Journaled, Intake.LanesOk;
      processed := DrainLane(Cancel);
    }

    /** `process_replaces`. */
    method ProcessReplaces() returns (processed: nat)
      requires Valid()
      modifies Repr()
      ensures Valid() && Kept() && processed == |old(ingress.State()).amendments|
      ensures ingress.State() == old(ingress.State()).(amendments := [])
      ensures process.State() == HandleFrames(process.codec, old(process.State()), process.defaultMarket, old(ingress.State()).amendments)
      ensures process.Log() == Journaled(old(process.Log()), process.wal.flushThreshold, old(ingress.State()).amendments)
    {
      hide Ingress.IngressPipeline.Valid, Process.Valid, HandleFrames, Journaled, Intake.LanesOk;
      processed := DrainLane(Replace);
    }

    /** One turn of the event loop: new orders, then cancels, then replaces. */
    method Turn() returns (processed: nat)
      requires Valid()
      modifies Repr()
      ensures Valid() && Kept() && processed == |Intake.Backlog(old(ingress.State()))|
      ensures ingress.State() == Intake.Emptied(old(ingress.State()))
      ensures process.State() == HandleFrames(process.codec, old(process.State()), process.defaultMarket, Intake.Backlog(old(ingress.State())))
      ensures process.State() == RunDaemon(old(process.State()), process.defaultMarket,
                                           Messages(process.codec, Intake.Backlog(old(ingress.State()))))
      ensures process.Log() == Journaled(old(process.Log()), process.wal.flushThreshold, Intake.Backlog(old(ingress.State())))
    {
      hide Ingress.IngressPipeline.Valid, Process.Valid, HandleFrames, Journaled, Messages, RunDaemon, Intake.LanesOk;
      ghost var before, log, p := process.State(), process.Log(), ingress.State();
      ghost var codec, market, threshold := process.codec, process.defaultMarket, process.wal.flushThreshold;
      var a := ProcessNewOrders();
      var b := ProcessCancels();
      HandleAppend(codec, before, market, p.newOrders, p.cancels);
      JournalAppend(log, threshold, p.newOrders, p.cancels);
      var c := ProcessReplaces();
      HandleAppend(codec, before, market, p.newOrders + p.cancels, p.amendments);
      JournalAppend(log, threshold, p.newOrders + p.cancels, p.amendments);
      FramesAreARun(codec, before, market, Intake.Backlog(p));
      processed := a + b + c;
    }

    /** What the transport does between turns: hand the arrived frames to the pipeline. */
    method Receive(frames: seq<Frame>)
      requires Valid()
      modifies ingress.Repr()
      ensures Valid() && Kept()
      ensures ingress.State() == Intake.SubmitAll(ingress.config, ingress.verifier, old(ingress.State()), frames)
    {
      hide Ingress.IngressPipeline.Valid, Process.Valid, Ingress.Submitted, Intake.LanesOk;
      ghost var before := ingress.State();
      for i := 0 to |frames|
        invariant Valid() && Kept()
        invariant ingress.State() == Intake.SubmitAll(ingress.config, ingress.verifier, before, frames[..i])
      {
        assert frames[..i + 1][..i] == frames[..i];
        Intake.SubmitKeepsLanes(ingress.config, ingress.verifier, ingress.State(), frames[i]);
        var accepted := ingress.Submit(frames[i]);
      }
      assert frames[..|frames|] == frames;
    }

    /**
     The event loop: in each turn a batch of frames has arrived, and all lanes
     are drained.  Over the whole loop the daemon makes the run of the decoded
     messages of all frames that it handles, and the log grows by all of them.
     */
    method Run(batches: seq<seq<Frame>>)
      requires Valid()
      modifies Repr()
      ensures Valid() && Kept()
      ensures ingress.State() == Intake.LoopPipeline(ingress.config, ingress.verifier, old(ingress.State()), batches)
      ensures var frames := Intake.Handled(ingress.config, ingress.verifier, old(ingress.State()), batches);
              && process.State() == RunDaemon(old(process.State()), process.defaultMarket, Messages(process.codec, frames))
              && process.Log() == Journaled(old(process.Log()), process.wal.flushThreshold, frames)
    {
      hide Ingress.IngressPipeline.Valid, Process.Valid, HandleFrames, Journaled, Messages, RunDaemon, Intake.SubmitAll,
        Intake.Backlog, Intake.Emptied, Intake.LanesOk;
      ghost var before, log, p, c, v := process.State(), process.Log(), ingress.State(), ingress.config, ingress.verifier;
      ghost var codec, market, threshold := process.codec, process.defaultMarket, process.wal.flushThreshold;
      LoopStarts(codec, before, market, log, threshold);
      for i := 0 to |batches|
        invariant Valid() && Kept()
        invariant ingress.State() == Intake.LoopPipeline(c, v, p, batches[..i])
        invariant process.State() == HandleFrames(codec, before, market, Intake.Handled(c, v, p, batches[..i]))
        invariant process.Log() == Journaled(log, threshold, Intake.Handled(c, v, p, batches[..i]))
      {
        ghost var done := Intake.Handled(c, v, p, batches[..i]);
        assert batches[..i + 1][..i] == batches[..i];
        Receive(batches[i]);
        ghost var more := Intake.Backlog(ingress.State());
        HandleAppend(codec, before, market, done, more);
        JournalAppend(log, threshold, done, more);
        var processed := Turn();
      }
      assert batches[..|batches|] == batches;
      FramesAreARun(codec, before, market, Intake.Handled(c, v, p, batches));
    }
  }

  lemma LaneRewritten(p: Ingress.Pipeline, kind: Kind)
    ensures Ingress.WithLane(p, kind, Ingress.Lane(p, kind)) == p
  {
  }

  /** Where a drain loop stands before and after its next frame. */
  lemma DrainStep(codec: Codec, d: Daemon.State, market: Common.U16, log: Wal.WriterState, threshold: nat,
                  p: Ingress.Pipeline, kind: Kind, n: nat)
    requires !kind.Heartbeat? && n <= |Ingress.Lane(p, kind)|
    ensures var lane := Ingress.Lane(p, kind);
            var q := Ingress.WithLane(p, kind, lane[n..]);
            && Ingress.Lane(q, kind) == lane[n..]
            && (n == |lane| ==> lane[n..] == [] && lane[..n] == lane)
            && (n < |lane| ==>
                  && lane[n..] != [] && lane[n..][0] == lane[n] && lane[n..][1..] == lane[n + 1..]
                  && Ingress.WithLane(q, kind, lane[n + 1..]) == Ingress.WithLane(p, kind, lane[n + 1..])
                  && HandleFrames(codec, d, market, lane[..n + 1])
                     == HandleFrame(codec, HandleFrames(codec, d, market, lane[..n]), market, lane[n])
                  && Journaled(log, threshold, lane[..n + 1])
                     == Wal.Appended(Journaled(log, threshold, lane[..n]), threshold, EntryOf(lane[n])))
  {
    hide HandleFrame, HandleFrames, Journaled, Wal.Appended, EntryOf;
    var lane := Ingress.Lane(p, kind);
    LaneWritten(p, kind, lane[n..]);
    if n < |lane| {
      assert lane[..n + 1] == lane[..n] + [lane[n]];
      HandleOneMore(codec, d, market, lane[..n], lane[n]);
      JournalOneMore(log, threshold, lane[..n], lane[n]);
    }
  }

  lemma LaneWritten(p: Ingress.Pipeline, kind: Kind, lane: seq<Frame>)
    requires !kind.Heartbeat?
    ensures Ingress.Lane(Ingress.WithLane(p, kind, lane), kind) == lane
    ensures forall other :: Ingress.WithLane(Ingress.WithLane(p, kind, lane), kind, other) == Ingress.WithLane(p, kind, other)
  {
  }

  lemma LoopStarts(codec: Codec, d: Daemon.State, market: Common.U16, log: Wal.WriterState, threshold: nat)
    ensures HandleFrames(codec, d, market, []) == d && Journaled(log, threshold, []) == log
  {
  }
}
