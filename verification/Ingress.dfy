/** The ingress pipeline: authentication, per-account rate windows, and the three lanes. */
module Ingress {
  import opened Common
  import opened Frames
  import SpscRing

  const ONE_SECOND := 1_000_000_000

  datatype Config = Config(
    newOrderDepth: nat, cancelDepth: nat, replaceDepth: nat,
    maxNewOrders: nat, maxCancels: nat, maxReplaces: nat)

  datatype Window = Window(start: int, newOrders: nat, cancels: nat, amendments: nat)

  const FIRST_WINDOW := Window(0, 0, 0, 0)

  function Count(w: Window, kind: Kind): nat {
    match kind case NewOrder => w.newOrders case Cancel => w.cancels case Replace => w.amendments case Heartbeat => 0
  }

  function Limit(c: Config, kind: Kind): nat {
    match kind case NewOrder => c.maxNewOrders case Cancel => c.maxCancels case Replace => c.maxReplaces case Heartbeat => 0
  }

  function Counted(w: Window, kind: Kind): Window {
    match kind
    case NewOrder => w.(newOrders := w.newOrders + 1)
    case Cancel => w.(cancels := w.cancels + 1)
    case Replace => w.(amendments := w.amendments + 1)
    case Heartbeat => w
  }

  /** A window lasts until a frame arrives a second or more after its start. */
  function Current(w: Window, timestamp: int): Window {
    if timestamp - w.start >= ONE_SECOND then Window(timestamp, 0, 0, 0) else w
  }

  predicate Limited(c: Config, w: Window, kind: Kind, timestamp: int) {
    !kind.Heartbeat? && Count(Current(w, timestamp), kind) >= Limit(c, kind)
  }

  function Judged(c: Config, w: Window, kind: Kind, timestamp: int): Window {
    if Limited(c, w, kind, timestamp) then Current(w, timestamp) else Counted(Current(w, timestamp), kind)
  }

  // ----- the arrivals of one account -----

  datatype Arrival = Arrival(kind: Kind, timestamp: int)

  function WindowAfter(c: Config, arrivals: seq<Arrival>): Window {
    if arrivals == [] then FIRST_WINDOW
    else
      var last := arrivals[|arrivals| - 1];
      Judged(c, WindowAfter(c, arrivals[..|arrivals| - 1]), last.kind, last.timestamp)
  }

  /** Arrival i passes the limiter. */
  predicate Admitted(c: Config, arrivals: seq<Arrival>, i: nat)
    requires i < |arrivals|
  {
    !Limited(c, WindowAfter(c, arrivals[..i]), arrivals[i].kind, arrivals[i].timestamp)
  }

  /** The start of the window that arrival i is judged in. */
  function StartAt(c: Config, arrivals: seq<Arrival>, i: nat): int
    requires i < |arrivals|
  {
    WindowAfter(c, arrivals[..i + 1]).start
  }

  lemma StartStep(c: Config, arrivals: seq<Arrival>, i: nat)
    requires i < |arrivals|
    ensures StartAt(c, arrivals, i) == Current(WindowAfter(c, arrivals[..i]), arrivals[i].timestamp).start
    ensures WindowAfter(c, arrivals[..i + 1]) == Judged(c, WindowAfter(c, arrivals[..i]), arrivals[i].kind, arrivals[i].timestamp)
  {
    assert arrivals[..i + 1][..i] == arrivals[..i];
  }

  /** From one arrival to a later one the window is the same, or it starts at least a second later, at an arrival in between. */
  lemma {:induction false} WindowsAdvance(c: Config, arrivals: seq<Arrival>, i: nat, j: nat)
    requires i <= j < |arrivals|
    ensures StartAt(c, arrivals, j) == StartAt(c, arrivals, i)
            || (StartAt(c, arrivals, j) >= StartAt(c, arrivals, i) + ONE_SECOND
                && exists k :: i < k <= j && arrivals[k].timestamp == StartAt(c, arrivals, j))
    decreases j
  {
    if i < j {
      WindowsAdvance(c, arrivals, i, j - 1);
      StartStep(c, arrivals, j);
      assert StartAt(c, arrivals, j) == StartAt(c, arrivals, j - 1) || arrivals[j].timestamp == StartAt(c, arrivals, j);
    }
  }

  /** The admitted arrivals of a kind among the first n, judged in the window starting at s. */
  ghost function InWindow(c: Config, arrivals: seq<Arrival>, kind: Kind, s: int, n: nat): set<int>
    requires n <= |arrivals|
  {
    set i | 0 <= i < n && Admitted(c, arrivals, i) && arrivals[i].kind == kind && StartAt(c, arrivals, i) == s
  }

  lemma InWindowStep(c: Config, arrivals: seq<Arrival>, kind: Kind, s: int, i: nat)
    requires i < |arrivals|
    ensures var mine := Admitted(c, arrivals, i) && arrivals[i].kind == kind && StartAt(c, arrivals, i) == s;
            InWindow(c, arrivals, kind, s, i + 1) == InWindow(c, arrivals, kind, s, i) + if mine then {i} else {}
    ensures i !in InWindow(c, arrivals, kind, s, i)
  {
  }

  /** While a window is open, its counter counts the arrivals it has admitted; later windows are empty. */
  lemma {:induction false} CounterIsExact(c: Config, arrivals: seq<Arrival>, kind: Kind, s: int, n: nat)
    requires n <= |arrivals| && !kind.Heartbeat?
    ensures var w := WindowAfter(c, arrivals[..n]);
            && Count(w, kind) <= Limit(c, kind)
            && (s == w.start ==> |InWindow(c, arrivals, kind, s, n)| == Count(w, kind))
            && (s > w.start ==> InWindow(c, arrivals, kind, s, n) == {})
  {
    hide InWindow, Admitted, StartAt, WindowAfter, Judged, Current, Limited, Count, Limit;
    if n == 0 {
      NothingYet(c, arrivals, kind, s);
    } else {
      var i := n - 1;
      CounterIsExact(c, arrivals, kind, s, i);
      StartStep(c, arrivals, i);
      InWindowStep(c, arrivals, kind, s, i);
      AdmittedIs(c, arrivals, i);
      CountStep(c, WindowAfter(c, arrivals[..i]), kind, arrivals[i]);
    }
  }

  /** What judging one arrival does to the counter of a kind. */
  lemma CountStep(c: Config, w: Window, kind: Kind, a: Arrival)
    requires !kind.Heartbeat? && Count(w, kind) <= Limit(c, kind)
    ensures var w' := Judged(c, w, a.kind, a.timestamp);
            && w'.start == Current(w, a.timestamp).start && w.start <= w'.start
            && Count(w', kind) == (if w'.start == w.start then Count(w, kind) else 0)
                                  + (if a.kind == kind && !Limited(c, w, a.kind, a.timestamp) then 1 else 0)
            && Count(w', kind) <= Limit(c, kind)
  {
  }

  lemma NothingYet(c: Config, arrivals: seq<Arrival>, kind: Kind, s: int)
    ensures InWindow(c, arrivals, kind, s, 0) == {}
    ensures Count(WindowAfter(c, arrivals[..0]), kind) == 0
  {
  }

  lemma AdmittedIs(c: Config, arrivals: seq<Arrival>, i: nat)
    requires i < |arrivals|
    ensures Admitted(c, arrivals, i) == !Limited(c, WindowAfter(c, arrivals[..i]), arrivals[i].kind, arrivals[i].timestamp)
    ensures StartAt(c, arrivals, i) == WindowAfter(c, arrivals[..i + 1]).start
  {
  }

  /** No window ever admits more than the limit of a kind, even when timestamps go backwards. */
  lemma {:induction false} WindowWithinLimit(c: Config, arrivals: seq<Arrival>, kind: Kind, s: int, n: nat)
    requires n <= |arrivals| && !kind.Heartbeat?
    ensures |InWindow(c, arrivals, kind, s, n)| <= Limit(c, kind)
  {
    hide InWindow, Admitted, StartAt, WindowAfter, Judged, Current, Limited, Count, Limit;
    CounterIsExact(c, arrivals, kind, s, n);
    if n == 0 {
      NothingYet(c, arrivals, kind, s);
    } else if s < WindowAfter(c, arrivals[..n]).start {
      AdmittedIs(c, arrivals, n - 1);
      InWindowStep(c, arrivals, kind, s, n - 1);
      WindowWithinLimit(c, arrivals, kind, s, n - 1);
    }
  }

  ghost predicate NonDecreasing(arrivals: seq<Arrival>) {
    forall i, j :: 0 <= i < j < |arrivals| ==> arrivals[i].timestamp <= arrivals[j].timestamp
  }

  /** The admitted arrivals of a kind in the second that begins at `from`. */
  ghost function InSecond(c: Config, arrivals: seq<Arrival>, kind: Kind, from: int): set<int> {
    set i | 0 <= i < |arrivals| && Admitted(c, arrivals, i) && arrivals[i].kind == kind
            && from <= arrivals[i].timestamp < from + ONE_SECOND
  }

  /** Of three arrivals within one second, the middle one shares its window with the first or the last. */
  lemma AtMostTwoWindows(c: Config, arrivals: seq<Arrival>, first: nat, i: nat, last: nat)
    requires NonDecreasing(arrivals) && first <= i <= last < |arrivals|
    requires arrivals[last].timestamp < arrivals[first].timestamp + ONE_SECOND
    ensures StartAt(c, arrivals, i) == StartAt(c, arrivals, first) || StartAt(c, arrivals, i) == StartAt(c, arrivals, last)
  {
    WindowBetween(c, arrivals, first, i);
    WindowBetween(c, arrivals, i, last);
  }

  /** A window that is new between two arrivals in order starts between their timestamps. */
  lemma WindowBetween(c: Config, arrivals: seq<Arrival>, i: nat, j: nat)
    requires NonDecreasing(arrivals) && i <= j < |arrivals|
    ensures StartAt(c, arrivals, j) == StartAt(c, arrivals, i)
            || (StartAt(c, arrivals, j) >= StartAt(c, arrivals, i) + ONE_SECOND
                && arrivals[i].timestamp <= StartAt(c, arrivals, j) <= arrivals[j].timestamp)
  {
    WindowsAdvance(c, arrivals, i, j);
    if StartAt(c, arrivals, j) != StartAt(c, arrivals, i) {
      var k :| i < k <= j && arrivals[k].timestamp == StartAt(c, arrivals, j);
      assert k < j ==> arrivals[k].timestamp <= arrivals[j].timestamp;
    }
  }

  /** The sliding bound: with non-decreasing timestamps, no second holds more than twice the limit. */
  lemma SlidingSecondBound(c: Config, arrivals: seq<Arrival>, kind: Kind, from: int)
    requires NonDecreasing(arrivals) && !kind.Heartbeat?
    ensures |InSecond(c, arrivals, kind, from)| <= 2 * Limit(c, kind)
  {
    var hits := InSecond(c, arrivals, kind, from);
    if hits != {} {
      var first, last := Extremes(hits);
      var a, b := InWindow(c, arrivals, kind, StartAt(c, arrivals, first), |arrivals|),
                  InWindow(c, arrivals, kind, StartAt(c, arrivals, last), |arrivals|);
      forall i | i in hits
        ensures i in a + b
      {
        AtMostTwoWindows(c, arrivals, first, i, last);
      }
      SmallerSet(hits, a + b);
      WindowWithinLimit(c, arrivals, kind, StartAt(c, arrivals, first), |arrivals|);
      WindowWithinLimit(c, arrivals, kind, StartAt(c, arrivals, last), |arrivals|);
    }
  }

  lemma Element<T>(s: set<T>) returns (x: T)
    requires s != {}
    ensures x in s
  {
    x :| x in s;
  }

  lemma {:induction false} Extremes(s: set<int>) returns (low: int, high: int)
    requires s != {}
    ensures low in s && high in s && forall i :: i in s ==> low <= i <= high
    decreases |s|
  {
    var x := Element(s);
    if s == {x} {
      low, high := x, x;
    } else {
      var rest := s - {x};
      assert s == rest + {x};
      low, high := Extremes(rest);
      assert forall i :: i in s ==> i == x || i in rest;
      low, high := Min(low, x), Max(high, x);
    }
  }

  lemma {:induction false} SmallerSet<T>(a: set<T>, b: set<T>)
    requires a <= b
    ensures |a| <= |b|
    decreases |a|
  {
    if a != {} {
      var x :| x in a;
      SmallerSet(a - {x}, b - {x});
    }
  }

  /** When a window starts: with the first frame a second or more after the start of the one before it. */
  lemma StartExact(c: Config, arrivals: seq<Arrival>, i: nat)
    requires i < |arrivals|
    ensures var before := if i == 0 then 0 else StartAt(c, arrivals, i - 1);
            StartAt(c, arrivals, i) == if arrivals[i].timestamp - before >= 1_000_000_000 then arrivals[i].timestamp else before
  {
    hide Judged;
    StartStep(c, arrivals, i);
    if i == 0 {
      assert arrivals[..0] == [];
    }
  }

  /** An arrival is admitted exactly when its window has admitted fewer of its kind than the limit. */
  lemma AdmittedExact(c: Config, arrivals: seq<Arrival>, i: nat)
    requires i < |arrivals| && !arrivals[i].kind.Heartbeat?
    ensures var kind := arrivals[i].kind;
            Admitted(c, arrivals, i) <==> |InWindow(c, arrivals, kind, StartAt(c, arrivals, i), i)| < Limit(c, kind)
  {
    hide InWindow, WindowAfter, Judged;
    var w := WindowAfter(c, arrivals[..i]);
    StartStep(c, arrivals, i);
    CounterIsExact(c, arrivals, arrivals[i].kind, StartAt(c, arrivals, i), i);
  }

  // ----- how sharp that bound is -----

  /** The limit's worth of arrivals at the last instant of a window, and again at the first instant after it. */
  function Burst(c: Config, kind: Kind): (r: seq<Arrival>)
    ensures |r| == 2 * Limit(c, kind)
    ensures forall i :: 0 <= i < |r| ==> r[i] == Arrival(kind, if i < Limit(c, kind) then ONE_SECOND - 1 else ONE_SECOND)
  {
    seq(2 * Limit(c, kind), i requires 0 <= i < 2 * Limit(c, kind) =>
      Arrival(kind, if i < Limit(c, kind) then ONE_SECOND - 1 else ONE_SECOND))
  }

  lemma {:induction false} BurstWindows(c: Config, kind: Kind, n: nat)
    requires !kind.Heartbeat? && n <= |Burst(c, kind)|
    ensures var w, limit := WindowAfter(c, Burst(c, kind)[..n]), Limit(c, kind);
            if n <= limit then w.start == 0 && Count(w, kind) == n else w.start == ONE_SECOND && Count(w, kind) == n - limit
  {
    var all := Burst(c, kind);
    if n > 0 {
      BurstWindows(c, kind, n - 1);
      assert all[..n][..n - 1] == all[..n - 1];
    }
  }

  ghost function UpTo(n: nat): (s: set<int>)
    ensures |s| == n && forall i :: i in s <==> 0 <= i < n
  {
    if n == 0 then {} else UpTo(n - 1) + {n - 1}
  }

  /** For every limit and kind, all of that burst is admitted within one second. */
  lemma TwiceTheLimit(c: Config, kind: Kind)
    requires !kind.Heartbeat?
    ensures NonDecreasing(Burst(c, kind)) && |InSecond(c, Burst(c, kind), kind, ONE_SECOND - 1)| == 2 * Limit(c, kind)
  {
    var all := Burst(c, kind);
    forall i | 0 <= i < |all|
      ensures Admitted(c, all, i)
    {
      BurstWindows(c, kind, i);
    }
    assert InSecond(c, all, kind, ONE_SECOND - 1) == UpTo(|all|);
  }

  /** Every second keeps to the limit itself, whatever arrives, exactly when the limit is zero. */
  lemma LimitPerSecondIff(c: Config, kind: Kind)
    requires !kind.Heartbeat?
    ensures (forall arrivals, from :: NonDecreasing(arrivals) ==> |InSecond(c, arrivals, kind, from)| <= Limit(c, kind))
            <==> Limit(c, kind) == 0
  {
    LeastBoundPerSecond(c, kind, Limit(c, kind));
  }

  /** Twice the limit is the least bound: no smaller number bounds every second. */
  lemma LeastBoundPerSecond(c: Config, kind: Kind, bound: nat)
    requires !kind.Heartbeat?
    ensures (forall arrivals, from :: NonDecreasing(arrivals) ==> |InSecond(c, arrivals, kind, from)| <= bound)
            <==> 2 * Limit(c, kind) <= bound
  {
    hide InSecond, NonDecreasing, Limit, Burst;
    TwiceTheLimit(c, kind);
    if 2 * Limit(c, kind) <= bound {
      forall arrivals, from | NonDecreasing(arrivals)
        ensures |InSecond(c, arrivals, kind, from)| <= bound
      {
        SlidingSecondBound(c, arrivals, kind, from);
      }
    }
  }

  // ----- the pipeline -----

  datatype Stats = Stats(accepted: nat, rejectedAuth: nat, rejectedRateLimit: nat, rejectedQueueFull: nat, droppedHeartbeats: nat)

  datatype Pipeline = Pipeline(
    windows: map<U64, Window>, stats: Stats,
    newOrders: seq<Frame>, cancels: seq<Frame>, amendments: seq<Frame>)

  const EMPTY_PIPELINE := Pipeline(map[], Stats(0, 0, 0, 0, 0), [], [], [])

  function Lane(p: Pipeline, kind: Kind): seq<Frame> {
    match kind case NewOrder => p.newOrders case Cancel => p.cancels case Replace => p.amendments case Heartbeat => []
  }

  function Depth(c: Config, kind: Kind): nat {
    match kind case NewOrder => c.newOrderDepth case Cancel => c.cancelDepth case Replace => c.replaceDepth case Heartbeat => 0
  }

  function WithLane(p: Pipeline, kind: Kind, lane: seq<Frame>): Pipeline {
    match kind
    case NewOrder => p.(newOrders := lane)
    case Cancel => p.(cancels := lane)
    case Replace => p.(amendments := lane)
    case Heartbeat => p
  }

  function WindowOf(p: Pipeline, account: U64): Window {
    if account in p.windows then p.windows[account] else FIRST_WINDOW
  }

  /** One `submit`: a lane of depth d takes at most d - 1 frames. */
  function Submitted(c: Config, verifier: Frame -> bool, p: Pipeline, f: Frame): (Pipeline, bool) {
    if f.kind.Heartbeat? then (p.(stats := p.stats.(droppedHeartbeats := p.stats.droppedHeartbeats + 1)), true)
    else if !verifier(f) then (p.(stats := p.stats.(rejectedAuth := p.stats.rejectedAuth + 1)), false)
    else
      var w := WindowOf(p, f.account);
      var q := p.(windows := p.windows[f.account := Judged(c, w, f.kind, f.receivedTime)]);
      if Limited(c, w, f.kind, f.receivedTime) then (q.(stats := q.stats.(rejectedRateLimit := q.stats.rejectedRateLimit + 1)), false)
      else if |Lane(p, f.kind)| + 1 >= Depth(c, f.kind) then
        (q.(stats := q.stats.(rejectedQueueFull := q.stats.rejectedQueueFull + 1)), false)
      else
        (WithLane(q, f.kind, Lane(p, f.kind) + [f]).(stats := q.stats.(accepted := q.stats.accepted + 1)), true)
  }

  datatype Input = Arriving(frame: Frame) | Draining(kind: Kind)

  /** Between reconfigurations frames arrive and the lanes are drained from the front. */
  function PipelineAfter(c: Config, verifier: Frame -> bool, inputs: seq<Input>): Pipeline {
    if inputs == [] then EMPTY_PIPELINE
    else
      var p := PipelineAfter(c, verifier, inputs[..|inputs| - 1]);
      match inputs[|inputs| - 1]
      case Arriving(f) => Submitted(c, verifier, p, f).0
      case Draining(kind) => if Lane(p, kind) == [] then p else WithLane(p, kind, Lane(p, kind)[1..])
  }

  /** The frames of an account that reach the limiter. */
  function ArrivalsOf(verifier: Frame -> bool, inputs: seq<Input>, account: U64): seq<Arrival> {
    if inputs == [] then []
    else
      ArrivalsOf(verifier, inputs[..|inputs| - 1], account) +
      match inputs[|inputs| - 1]
      case Arriving(f) =>
        if f.account == account && !f.kind.Heartbeat? && verifier(f) then [Arrival(f.kind, f.receivedTime)] else []
      case Draining(_) => []
  }

  lemma DrainKeepsWindows(p: Pipeline, kind: Kind)
    ensures Lane(p, kind) != [] ==> WithLane(p, kind, Lane(p, kind)[1..]).windows == p.windows
  {
  }

  lemma SubmitMovesWindow(c: Config, verifier: Frame -> bool, p: Pipeline, f: Frame, account: U64)
    ensures WindowOf(Submitted(c, verifier, p, f).0, account)
            == if f.account == account && !f.kind.Heartbeat? && verifier(f) then Judged(c, WindowOf(p, account), f.kind, f.receivedTime)
               else WindowOf(p, account)
  {
    hide Judged, Limited;
  }

  lemma WindowStep(c: Config, arrivals: seq<Arrival>, a: Arrival)
    ensures WindowAfter(c, arrivals + [a]) == Judged(c, WindowAfter(c, arrivals), a.kind, a.timestamp)
  {
    assert (arrivals + [a])[..|arrivals|] == arrivals;
  }

  /** Each account's window is decided by its own arrivals, so the bounds above hold account by account. */
  lemma {:induction false} WindowsAreIndependent(c: Config, verifier: Frame -> bool, inputs: seq<Input>, account: U64)
    ensures WindowOf(PipelineAfter(c, verifier, inputs), account) == WindowAfter(c, ArrivalsOf(verifier, inputs, account))
  {
    if inputs != [] {
      hide Judged, Submitted;
      var before := inputs[..|inputs| - 1];
      WindowsAreIndependent(c, verifier, before, account);
      var p, arrivals := PipelineAfter(c, verifier, before), ArrivalsOf(verifier, before, account);
      assert arrivals + [] == arrivals;
      match inputs[|inputs| - 1]
      case Draining(kind) =>
        DrainKeepsWindows(p, kind);
      case Arriving(f) =>
        SubmitMovesWindow(c, verifier, p, f, account);
        WindowStep(c, arrivals, Arrival(f.kind, f.receivedTime));
    }
  }

  /** What `submit` answers, and that it counts every frame in exactly one way. */
  lemma SubmitAnswer(c: Config, verifier: Frame -> bool, p: Pipeline, f: Frame)
    ensures var (p', accepted) := Submitted(c, verifier, p, f);
            var admitted := !Limited(c, WindowOf(p, f.account), f.kind, f.receivedTime);
            && (accepted <==> f.kind.Heartbeat? || (verifier(f) && admitted && |Lane(p, f.kind)| < Depth(c, f.kind) - 1))
            && p'.stats.accepted == p.stats.accepted + (if accepted && !f.kind.Heartbeat? then 1 else 0)
            && p'.stats.droppedHeartbeats == p.stats.droppedHeartbeats + (if f.kind.Heartbeat? then 1 else 0)
            && p'.stats.rejectedAuth == p.stats.rejectedAuth + (if !f.kind.Heartbeat? && !verifier(f) then 1 else 0)
            && p'.stats.rejectedRateLimit
               == p.stats.rejectedRateLimit + (if !f.kind.Heartbeat? && verifier(f) && !admitted then 1 else 0)
            && Total(p'.stats) == Total(p.stats) + 1
  {
    hide Judged, Limited;
  }

  function Total(s: Stats): nat {
    s.accepted + s.rejectedAuth + s.rejectedRateLimit + s.rejectedQueueFull + s.droppedHeartbeats
  }

  /** Input i is a frame of this account and kind, and the pipeline accepts it. */
  ghost predicate Accepted(c: Config, verifier: Frame -> bool, inputs: seq<Input>, i: nat, account: U64, kind: Kind) {
    && i < |inputs| && inputs[i].Arriving?
    && inputs[i].frame.account == account && inputs[i].frame.kind == kind
    && Submitted(c, verifier, PipelineAfter(c, verifier, inputs[..i]), inputs[i].frame).1
  }

  /**
   In any run of the pipeline a frame is accepted exactly when it is
   authenticated, its account's window has admitted fewer of its kind than the
   limit, and its lane holds fewer than the depth less one.
   */
  lemma AcceptedExact(c: Config, verifier: Frame -> bool, inputs: seq<Input>, i: nat, account: U64, kind: Kind)
    requires i < |inputs| && inputs[i].Arriving? && inputs[i].frame.account == account && inputs[i].frame.kind == kind
    requires !kind.Heartbeat?
    ensures var f, all, k := inputs[i].frame, ArrivalsOf(verifier, inputs[..i + 1], account), Place(verifier, inputs, account, i);
            var p := PipelineAfter(c, verifier, inputs[..i]);
            var (limit, depth, lane) := match kind
                                        case NewOrder => (c.maxNewOrders, c.newOrderDepth, p.newOrders)
                                        case Cancel => (c.maxCancels, c.cancelDepth, p.cancels)
                                        case Replace => (c.maxReplaces, c.replaceDepth, p.amendments);
            Accepted(c, verifier, inputs, i, account, kind) <==>
            verifier(f) && k < |all| && |InWindow(c, all, kind, StartAt(c, all, k), k)| < limit && |lane| + 1 < depth
  {
    hide WindowAfter, PipelineAfter, ArrivalsOf, InWindow, Submitted, Limited;
    var f, p := inputs[i].frame, PipelineAfter(c, verifier, inputs[..i]);
    var all, mine := ArrivalsOf(verifier, inputs[..i + 1], account), ArrivalsOf(verifier, inputs[..i], account);
    SubmitAnswer(c, verifier, p, f);
    if verifier(f) {
      ArrivalsStep(verifier, inputs, i, account);
      WindowsAreIndependent(c, verifier, inputs[..i], account);
      assert all[..|mine|] == mine && all[|mine|] == Arrival(kind, f.receivedTime);
      AdmittedExact(c, all, |mine|);
    }
  }

  /** The accepted frames of an account and kind whose timestamps lie in the second that begins at `from`. */
  ghost function AcceptedInSecond(c: Config, verifier: Frame -> bool, inputs: seq<Input>, account: U64, kind: Kind, from: int): set<int> {
    set i | 0 <= i < |inputs| && Accepted(c, verifier, inputs, i, account, kind)
            && from <= inputs[i].frame.receivedTime < from + ONE_SECOND
  }

  lemma {:induction false} ArrivalsGrow(verifier: Frame -> bool, inputs: seq<Input>, n: nat, account: U64)
    requires n <= |inputs|
    ensures ArrivalsOf(verifier, inputs[..n], account) <= ArrivalsOf(verifier, inputs, account)
  {
    if n == |inputs| {
      assert inputs[..n] == inputs;
    } else {
      var before := inputs[..|inputs| - 1];
      ArrivalsGrow(verifier, before, n, account);
      assert before[..n] == inputs[..n];
      assert ArrivalsOf(verifier, before, account) <= ArrivalsOf(verifier, inputs, account);
    }
  }

  /** The place of input i among the arrivals of an account. */
  ghost function Place(verifier: Frame -> bool, inputs: seq<Input>, account: U64, i: int): nat {
    if 0 <= i <= |inputs| then |ArrivalsOf(verifier, inputs[..i], account)| else 0
  }

  /** An accepted frame is an arrival that the limiter admitted, and later frames come at later places. */
  lemma AcceptedIsAdmitted(c: Config, verifier: Frame -> bool, inputs: seq<Input>, i: nat, account: U64, kind: Kind)
    requires !kind.Heartbeat? && Accepted(c, verifier, inputs, i, account, kind)
    ensures var all, k := ArrivalsOf(verifier, inputs, account), Place(verifier, inputs, account, i);
            && k < |all| && all[k] == Arrival(kind, inputs[i].frame.receivedTime) && Admitted(c, all, k)
            && Place(verifier, inputs, account, i + 1) == k + 1
  {
    hide WindowAfter, PipelineAfter, ArrivalsOf;
    var all, mine := ArrivalsOf(verifier, inputs, account), ArrivalsOf(verifier, inputs[..i], account);
    ArrivalsGrow(verifier, inputs, i, account);
    ArrivalsGrow(verifier, inputs, i + 1, account);
    ArrivalsStep(verifier, inputs, i, account);
    WindowsAreIndependent(c, verifier, inputs[..i], account);
    assert all[..|mine|] == mine;
  }

  lemma ArrivalsStep(verifier: Frame -> bool, inputs: seq<Input>, i: nat, account: U64)
    requires i < |inputs| && inputs[i].Arriving?
    ensures var f := inputs[i].frame;
            f.account == account && !f.kind.Heartbeat? && verifier(f) ==>
              ArrivalsOf(verifier, inputs[..i + 1], account) == ArrivalsOf(verifier, inputs[..i], account) + [Arrival(f.kind, f.receivedTime)]
  {
    assert inputs[..i + 1][..i] == inputs[..i];
  }

  lemma LaterPlace(verifier: Frame -> bool, inputs: seq<Input>, account: U64, i: nat, j: nat)
    requires i <= j <= |inputs|
    ensures Place(verifier, inputs, account, i) <= Place(verifier, inputs, account, j)
  {
    assert inputs[..j][..i] == inputs[..i];
    ArrivalsGrow(verifier, inputs[..j], i, account);
  }

  lemma {:induction false} Injected(s: set<int>, t: set<int>, f: int -> int)
    requires forall i :: i in s ==> f(i) in t
    requires forall i, j :: i in s && j in s && i < j ==> f(i) < f(j)
    ensures |s| <= |t|
    decreases |s|
  {
    if s != {} {
      var x := Element(s);
      Injected(s - {x}, t - {f(x)}, f);
    }
  }

  /**
   What the limiter promises of the pipeline as a whole: whatever other
   accounts send and however the lanes fill and drain, no second holds more
   than twice the limit of an account's accepted frames of a kind.
   */
  lemma PipelineSlidingBound(c: Config, verifier: Frame -> bool, inputs: seq<Input>, account: U64, kind: Kind, from: int)
    requires !kind.Heartbeat? && NonDecreasing(ArrivalsOf(verifier, inputs, account))
    ensures |AcceptedInSecond(c, verifier, inputs, account, kind, from)| <= 2 * Limit(c, kind)
  {
    hide Accepted, Admitted, ArrivalsOf, Place;
    var all := ArrivalsOf(verifier, inputs, account);
    var hits, admitted := AcceptedInSecond(c, verifier, inputs, account, kind, from), InSecond(c, all, kind, from);
    var f := i => Place(verifier, inputs, account, i);
    forall i | i in hits
      ensures f(i) in admitted
    {
      AcceptedIsAdmitted(c, verifier, inputs, i, account, kind);
    }
    forall i, j | i in hits && j in hits && i < j
      ensures f(i) < f(j)
    {
      AcceptedIsAdmitted(c, verifier, inputs, i, account, kind);
      LaterPlace(verifier, inputs, account, i + 1, j);
    }
    Injected(hits, admitted, f);
    SlidingSecondBound(c, all, kind, from);
  }

  /** The configuration of a pipeline that has not been configured yet. */
  const DEFAULT_CONFIG := Config(4096, 4096, 4096, 10_000, 20_000, 20_000)

  class IngressPipeline {
    var config: Config
    var verifier: Frame -> bool
    var windows: map<U64, Window>
    var stats: Stats
    var newOrders: SpscRing.Buffer<Frame>
    var cancels: SpscRing.Buffer<Frame>
    var amendments: SpscRing.Buffer<Frame>

    /** Before `configure` every frame passes authentication. */
    constructor ()
      ensures Valid() && config == DEFAULT_CONFIG && State() == EMPTY_PIPELINE
      ensures fresh(newOrders) && fresh(newOrders.slots) && fresh(cancels) && fresh(cancels.slots)
      ensures fresh(amendments) && fresh(amendments.slots)
      ensures forall f :: verifier(f)
    {
      hide SpscRing.Buffer.Valid, SpscRing.BitAnd;
      DefaultDepth();
      config, verifier := DEFAULT_CONFIG, _ => true;
      windows, stats := map[], Stats(0, 0, 0, 0, 0);
      var a := new SpscRing.Buffer<Frame>(4096);
      var b := new SpscRing.Buffer<Frame>(4096);
      var c := new SpscRing.Buffer<Frame>(4096);
      newOrders, cancels, amendments := a, b, c;
    }

    /** The lanes are three separate rings of the configured depths. */
    ghost predicate Valid()
      reads Repr()
    {
      && newOrders.Valid() && cancels.Valid() && amendments.Valid()
      && newOrders != cancels && newOrders != amendments && cancels != amendments
      && newOrders.slots != cancels.slots && newOrders.slots != amendments.slots && cancels.slots != amendments.slots
      && newOrders.Room() == config.newOrderDepth && cancels.Room() == config.cancelDepth && amendments.Room() == config.replaceDepth
    }

    ghost function Repr(): set<object>
      reads this
    {
      {this, newOrders, newOrders.slots, cancels, cancels.slots, amendments, amendments.slots}
    }

    ghost function State(): Pipeline
      reads this, newOrders, cancels, amendments
    {
      Pipeline(windows, stats, newOrders.Waiting(), cancels.Waiting(), amendments.Waiting())
    }

    /** Fails, like the construction of a ring, on a depth that is not a power of two. */
    method Configure(c: Config, v: Frame -> bool) returns (ok: bool)
      modifies this
      ensures ok <==> SpscRing.PowerOfTwo(c.newOrderDepth) && SpscRing.PowerOfTwo(c.cancelDepth) && SpscRing.PowerOfTwo(c.replaceDepth)
      ensures ok ==> Valid() && config == c && verifier == v && State() == EMPTY_PIPELINE
      ensures ok ==> fresh(newOrders) && fresh(newOrders.slots) && fresh(cancels) && fresh(cancels.slots)
      ensures ok ==> fresh(amendments) && fresh(amendments.slots)
    {
      hide SpscRing.Buffer.Valid, SpscRing.PowerOfTwo;
      config, verifier := c, v;
      var ring := SpscRing.Create<Frame>(c.newOrderDepth);
      if ring == null {
        return false;
      }
      newOrders := ring;
      ring := SpscRing.Create<Frame>(c.cancelDepth);
      if ring == null {
        return false;
      }
      cancels := ring;
      ring := SpscRing.Create<Frame>(c.replaceDepth);
      if ring == null {
        return false;
      }
      amendments := ring;
      windows, stats := map[], Stats(0, 0, 0, 0, 0);
      return true;
    }

    method Submit(frame: Frame) returns (accepted: bool)
      requires Valid()
      modifies Repr()
      ensures Valid() && Repr() == old(Repr()) && config == old(config) && verifier == old(verifier)
      ensures (State(), accepted) == Submitted(config, verifier, old(State()), frame)
    {
      hide SpscRing.Buffer.Valid, SpscRing.Buffer.Waiting, Judged, Limited;
      if frame.kind.Heartbeat? {
        stats := stats.(droppedHeartbeats := stats.droppedHeartbeats + 1);
        return true;
      }
      if !verifier(frame) {
        stats := stats.(rejectedAuth := stats.rejectedAuth + 1);
        return false;
      }
      var window := if frame.account in windows then windows[frame.account] else FIRST_WINDOW;
      var limited;
      window, limited := RateLimit(window, frame.kind, frame.receivedTime);
      windows := windows[frame.account := window];
      if limited {
        stats := stats.(rejectedRateLimit := stats.rejectedRateLimit + 1);
        return false;
      }
      var pushed := Push(frame);
      if !pushed {
        stats := stats.(rejectedQueueFull := stats.rejectedQueueFull + 1);
        return false;
      }
      stats := stats.(accepted := stats.accepted + 1);
      return true;
    }

    /** Push a frame into the lane of its kind. */
    method Push(frame: Frame) returns (pushed: bool)
      requires Valid() && !frame.kind.Heartbeat?
      modifies Repr() - {this}
      ensures Valid()
      ensures pushed <==> |Lane(old(State()), frame.kind)| < Depth(config, frame.kind) - 1
      ensures State() == if pushed then WithLane(old(State()), frame.kind, Lane(old(State()), frame.kind) + [frame]) else old(State())
    {
      hide SpscRing.Buffer.Valid;
      match frame.kind {
        case NewOrder => pushed := newOrders.Push(frame);
        case Cancel => pushed := cancels.Push(frame);
        case Replace => pushed := amendments.Push(frame);
      }
    }

    method RateLimit(w: Window, kind: Kind, timestamp: int) returns (window: Window, limited: bool)
      ensures limited == Limited(config, w, kind, timestamp) && window == Judged(config, w, kind, timestamp)
    {
      window := w;
      if timestamp - window.start >= ONE_SECOND {
        window := Window(timestamp, 0, 0, 0);
      }
      limited := false;
      match kind
      case NewOrder =>
        if window.newOrders >= config.maxNewOrders { return window, true; }
        window := window.(newOrders := window.newOrders + 1);
      case Cancel =>
        if window.cancels >= config.maxCancels { return window, true; }
        window := window.(cancels := window.cancels + 1);
      case Replace =>
        if window.amendments >= config.maxReplaces { return window, true; }
        window := window.(amendments := window.amendments + 1);
      case Heartbeat =>
    }

    /** `next_new_order`, `next_cancel` and `next_replace`: take the front of a lane. */
    method Drain(kind: Kind) returns (out: Option<Frame>)
      requires Valid() && !kind.Heartbeat?
      modifies Repr() - {this}
      ensures Valid() && Repr() == old(Repr())
      ensures out == if Lane(old(State()), kind) == [] then None else Some(Lane(old(State()), kind)[0])
      ensures State() == if out.None? then old(State()) else WithLane(old(State()), kind, Lane(old(State()), kind)[1..])
    {
      hide SpscRing.Buffer.Valid;
      match kind {
        case NewOrder => out := newOrders.Pop();
        case Cancel => out := cancels.Pop();
        case Replace => out := amendments.Pop();
      }
    }
  }

  lemma DefaultDepth()
    ensures SpscRing.CapacityAccepted(4096)
  {
    assert SpscRing.PowerOfTwo(16);
    assert SpscRing.PowerOfTwo(256);
    assert SpscRing.PowerOfTwo(4096);
    SpscRing.CapacityCheckExact(4096);
  }
}
