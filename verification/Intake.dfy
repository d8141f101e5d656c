/** The way of a frame from its arrival to its handling: accepted into a lane, drained in a turn of the event loop. */
module Intake {
  import opened Frames
  import opened Ingress

  /** The frames of one kind, in order. */
  function OfKind(kind: Kind, frames: seq<Frame>): seq<Frame> {
    if frames == [] then []
    else
      var last := frames[|frames| - 1];
      OfKind(kind, frames[..|frames| - 1]) + if last.kind == kind then [last] else []
  }

  ghost predicate AllOf(kind: Kind, frames: seq<Frame>) {
    forall i :: 0 <= i < |frames| ==> frames[i].kind == kind
  }

  /** Each lane holds frames of its own kind. */
  ghost predicate LanesOk(p: Pipeline) {
    AllOf(NewOrder, p.newOrders) && AllOf(Cancel, p.cancels) && AllOf(Replace, p.amendments)
  }

  lemma SubmitKeepsLanes(c: Config, verifier: Frame -> bool, p: Pipeline, f: Frame)
    requires LanesOk(p)
    ensures LanesOk(Submitted(c, verifier, p, f).0)
  {
    hide Judged, Limited;
  }

  /** What is taken from the front of a lane is of the lane's kind. */
  lemma FrontOfLane(p: Pipeline, kind: Kind)
    requires LanesOk(p)
    ensures Lane(p, kind) != [] ==> Lane(p, kind)[0].kind == kind && LanesOk(WithLane(p, kind, Lane(p, kind)[1..]))
  {
  }

  /** What waits in the lanes, in the order in which a turn handles it. */
  function Backlog(p: Pipeline): seq<Frame> {
    p.newOrders + p.cancels + p.amendments
  }

  function Emptied(p: Pipeline): Pipeline {
    p.(newOrders := [], cancels := [], amendments := [])
  }

  function SubmitAll(c: Config, verifier: Frame -> bool, p: Pipeline, frames: seq<Frame>): Pipeline {
    if frames == [] then p
    else Submitted(c, verifier, SubmitAll(c, verifier, p, frames[..|frames| - 1]), frames[|frames| - 1]).0
  }

  /** The frames among some arrivals that the pipeline accepts. */
  function AcceptedOf(c: Config, verifier: Frame -> bool, p: Pipeline, frames: seq<Frame>): seq<Frame> {
    if frames == [] then []
    else
      var before, last := frames[..|frames| - 1], frames[|frames| - 1];
      AcceptedOf(c, verifier, p, before)
      + if Submitted(c, verifier, SubmitAll(c, verifier, p, before), last).1 then [last] else []
  }

  // ----- the event loop: before each turn a batch of frames has arrived -----

  function LoopPipeline(c: Config, verifier: Frame -> bool, p: Pipeline, batches: seq<seq<Frame>>): Pipeline {
    if batches == [] then p
    else Emptied(SubmitAll(c, verifier, LoopPipeline(c, verifier, p, batches[..|batches| - 1]), batches[|batches| - 1]))
  }

  /** The frames that the turns of the loop handle, in order. */
  function Handled(c: Config, verifier: Frame -> bool, p: Pipeline, batches: seq<seq<Frame>>): seq<Frame> {
    if batches == [] then []
    else
      var before := batches[..|batches| - 1];
      Handled(c, verifier, p, before)
      + Backlog(SubmitAll(c, verifier, LoopPipeline(c, verifier, p, before), batches[|batches| - 1]))
  }

  /** The frames that the pipeline accepts over the whole loop, in order of arrival. */
  function Accepted(c: Config, verifier: Frame -> bool, p: Pipeline, batches: seq<seq<Frame>>): seq<Frame> {
    if batches == [] then []
    else
      var before := batches[..|batches| - 1];
      Accepted(c, verifier, p, before)
      + AcceptedOf(c, verifier, LoopPipeline(c, verifier, p, before), batches[|batches| - 1])
  }

  lemma {:induction false} OfKindAppend(kind: Kind, a: seq<Frame>, b: seq<Frame>)
    ensures OfKind(kind, a + b) == OfKind(kind, a) + OfKind(kind, b)
    decreases |b|
  {
    if b == [] {
      assert a + b == a;
    } else {
      assert (a + b)[..|a + b| - 1] == a + b[..|b| - 1];
      OfKindAppend(kind, a, b[..|b| - 1]);
    }
  }

  lemma {:induction false} OfKindAll(kind: Kind, other: Kind, frames: seq<Frame>)
    requires AllOf(other, frames)
    ensures OfKind(kind, frames) == if kind == other then frames else []
  {
    if frames != [] {
      OfKindAll(kind, other, frames[..|frames| - 1]);
    }
  }

  /** A backlog holds each lane's frames, in the lane's order. */
  lemma BacklogByKind(p: Pipeline, kind: Kind)
    requires LanesOk(p) && !kind.Heartbeat?
    ensures OfKind(kind, Backlog(p)) == Lane(p, kind)
  {
    hide OfKind, AllOf;
    OfKindAppend(kind, p.newOrders + p.cancels, p.amendments);
    OfKindAppend(kind, p.newOrders, p.cancels);
    OfKindAll(kind, NewOrder, p.newOrders);
    OfKindAll(kind, Cancel, p.cancels);
    OfKindAll(kind, Replace, p.amendments);
    var a, b, d := OfKind(kind, p.newOrders), OfKind(kind, p.cancels), OfKind(kind, p.amendments);
    assert a + b + d == if kind == NewOrder then a else if kind == Cancel then b else d;
  }

  lemma SubmitFillsLane(c: Config, verifier: Frame -> bool, p: Pipeline, f: Frame, kind: Kind)
    requires !kind.Heartbeat?
    ensures var (p', accepted) := Submitted(c, verifier, p, f);
            Lane(p', kind) == Lane(p, kind) + if accepted && f.kind == kind then [f] else []
  {
    hide Judged, Limited;
  }

  /** Accepted frames, and only they, join their lane at its end. */
  lemma {:induction false} SubmitAllFillsLane(c: Config, verifier: Frame -> bool, p: Pipeline, frames: seq<Frame>, kind: Kind)
    requires LanesOk(p) && !kind.Heartbeat?
    ensures LanesOk(SubmitAll(c, verifier, p, frames))
    ensures Lane(SubmitAll(c, verifier, p, frames), kind) == Lane(p, kind) + OfKind(kind, AcceptedOf(c, verifier, p, frames))
  {
    hide Submitted, LanesOk, Lane, OfKind;
    if frames == [] {
      OneOfKindNone(kind);
    } else {
      var before, last := frames[..|frames| - 1], frames[|frames| - 1];
      SubmitAllFillsLane(c, verifier, p, before, kind);
      var mid := SubmitAll(c, verifier, p, before);
      SubmitKeepsLanes(c, verifier, mid, last);
      SubmitFillsLane(c, verifier, mid, last, kind);
      var more := if Submitted(c, verifier, mid, last).1 then [last] else [];
      OfKindAppend(kind, AcceptedOf(c, verifier, p, before), more);
      OneOfKind(kind, last);
    }
  }

  lemma OneOfKind(kind: Kind, f: Frame)
    ensures OfKind(kind, [f]) == if f.kind == kind then [f] else []
    ensures OfKind(kind, []) == []
  {
    assert [f][..0] == [];
  }

  lemma EmptiedLanes(p: Pipeline, kind: Kind)
    ensures LanesOk(Emptied(p)) && Lane(Emptied(p), kind) == []
  {
  }

  /**
   Over the whole event loop every accepted frame is handled exactly once, and
   frames of a kind are handled in the order in which they were accepted.
   */
  lemma {:induction false} AcceptedFramesAreHandled(c: Config, verifier: Frame -> bool, p: Pipeline, batches: seq<seq<Frame>>, kind: Kind)
    requires LanesOk(p) && !kind.Heartbeat? && Backlog(p) == []
    ensures OfKind(kind, Handled(c, verifier, p, batches)) == OfKind(kind, Accepted(c, verifier, p, batches))
    ensures LanesOk(LoopPipeline(c, verifier, p, batches)) && Backlog(LoopPipeline(c, verifier, p, batches)) == []
  {
    hide SubmitAll, AcceptedOf, LanesOk, OfKind, Lane;
    if batches != [] {
      var before, last := batches[..|batches| - 1], batches[|batches| - 1];
      AcceptedFramesAreHandled(c, verifier, p, before, kind);
      var q := LoopPipeline(c, verifier, p, before);
      BacklogByKind(q, kind);
      OneOfKindNone(kind);
      SubmitAllFillsLane(c, verifier, q, last, kind);
      BacklogByKind(SubmitAll(c, verifier, q, last), kind);
      OfKindAppend(kind, Handled(c, verifier, p, before), Backlog(SubmitAll(c, verifier, q, last)));
      OfKindAppend(kind, Accepted(c, verifier, p, before), AcceptedOf(c, verifier, q, last));
      EmptiedLanes(SubmitAll(c, verifier, q, last), kind);
    }
  }

  lemma OneOfKindNone(kind: Kind)
    ensures OfKind(kind, []) == []
  {
  }

  // ----- frames that are admitted, whether or not their lane has room -----

  /** The frames among some arrivals that are authenticated and pass their account's limiter. */
  function AdmittedOf(c: Config, verifier: Frame -> bool, p: Pipeline, frames: seq<Frame>): seq<Frame> {
    if frames == [] then []
    else
      var before, last := frames[..|frames| - 1], frames[|frames| - 1];
      AdmittedOf(c, verifier, p, before)
      + if Passes(c, verifier, SubmitAll(c, verifier, p, before), last) then [last] else []
  }

  predicate Passes(c: Config, verifier: Frame -> bool, p: Pipeline, f: Frame) {
    !f.kind.Heartbeat? && verifier(f) && !Limited(c, WindowOf(p, f.account), f.kind, f.receivedTime)
  }

  function AllAdmitted(c: Config, verifier: Frame -> bool, p: Pipeline, batches: seq<seq<Frame>>): seq<Frame> {
    if batches == [] then []
    else
      var before := batches[..|batches| - 1];
      AllAdmitted(c, verifier, p, before)
      + AdmittedOf(c, verifier, LoopPipeline(c, verifier, p, before), batches[|batches| - 1])
  }

  lemma {:induction false} OfKindGrows(kind: Kind, frames: seq<Frame>)
    requires frames != []
    ensures var last := frames[|frames| - 1];
            |OfKind(kind, frames)| == |OfKind(kind, frames[..|frames| - 1])| + if last.kind == kind then 1 else 0
  {
  }

  /** While a batch fits an empty lane, its frames of that kind are accepted exactly if they are admitted. */
  lemma {:induction false} RoomForAll(c: Config, verifier: Frame -> bool, p: Pipeline, frames: seq<Frame>, kind: Kind)
    requires LanesOk(p) && !kind.Heartbeat? && Lane(p, kind) == []
    requires |OfKind(kind, frames)| <= Depth(c, kind) - 1
    ensures OfKind(kind, AcceptedOf(c, verifier, p, frames)) == OfKind(kind, AdmittedOf(c, verifier, p, frames))
    ensures |Lane(SubmitAll(c, verifier, p, frames), kind)| <= |OfKind(kind, frames)|
  {
    hide Submitted, LanesOk, Lane, Limited, Depth, OfKind;
    if frames != [] {
      var before, last := frames[..|frames| - 1], frames[|frames| - 1];
      OfKindGrows(kind, frames);
      RoomForAll(c, verifier, p, before, kind);
      var mid := SubmitAll(c, verifier, p, before);
      SubmitAnswer(c, verifier, mid, last);
      SubmitFillsLane(c, verifier, mid, last, kind);
      var accepted := if Submitted(c, verifier, mid, last).1 then [last] else [];
      var admitted := if Passes(c, verifier, mid, last) then [last] else [];
      OfKindAppend(kind, AcceptedOf(c, verifier, p, before), accepted);
      OfKindAppend(kind, AdmittedOf(c, verifier, p, before), admitted);
      OneOfKind(kind, last);
    } else {
      NoneOfKind(c, verifier, p, kind);
    }
  }

  lemma NoneOfKind(c: Config, verifier: Frame -> bool, p: Pipeline, kind: Kind)
    ensures OfKind(kind, AcceptedOf(c, verifier, p, [])) == [] == OfKind(kind, AdmittedOf(c, verifier, p, []))
  {
  }

  /**
   Over the whole event loop, if no batch brings more frames of a kind than the
   depth of its lane less one, every admitted frame of that kind is handled
   exactly once, in order of arrival.
   */
  lemma {:induction false} AdmittedFramesAreHandled(c: Config, verifier: Frame -> bool, p: Pipeline, batches: seq<seq<Frame>>, kind: Kind)
    requires LanesOk(p) && !kind.Heartbeat? && Backlog(p) == []
    requires forall i :: 0 <= i < |batches| ==> |OfKind(kind, batches[i])| <= Depth(c, kind) - 1
    ensures OfKind(kind, Handled(c, verifier, p, batches)) == OfKind(kind, AllAdmitted(c, verifier, p, batches))
  {
    AcceptedFramesAreHandled(c, verifier, p, batches, kind);
    AcceptedAreAdmitted(c, verifier, p, batches, kind);
  }

  lemma {:induction false} AcceptedAreAdmitted(c: Config, verifier: Frame -> bool, p: Pipeline, batches: seq<seq<Frame>>, kind: Kind)
    requires LanesOk(p) && !kind.Heartbeat? && Backlog(p) == []
    requires forall i :: 0 <= i < |batches| ==> |OfKind(kind, batches[i])| <= Depth(c, kind) - 1
    ensures OfKind(kind, Accepted(c, verifier, p, batches)) == OfKind(kind, AllAdmitted(c, verifier, p, batches))
  {
    hide SubmitAll, AcceptedOf, AdmittedOf, LanesOk, OfKind, Lane, Depth;
    if batches != [] {
      var before, last := batches[..|batches| - 1], batches[|batches| - 1];
      AcceptedAreAdmitted(c, verifier, p, before, kind);
      AcceptedFramesAreHandled(c, verifier, p, before, kind);
      var q := LoopPipeline(c, verifier, p, before);
      BacklogByKind(q, kind);
      OneOfKindNone(kind);
      RoomForAll(c, verifier, q, last, kind);
      OfKindAppend(kind, Accepted(c, verifier, p, before), AcceptedOf(c, verifier, q, last));
      OfKindAppend(kind, AllAdmitted(c, verifier, p, before), AdmittedOf(c, verifier, q, last));
    }
  }
}
