/**
 The single-producer single-consumer ring as two threads whose loads, slot
 accesses and stores interleave freely.  An acquire load of the other side's
 index may return any value that index has had since the last one seen.
 */
module SpscRing {
  import opened Common

  // ----- capacity and mask -----

  function BitAnd(a: nat, b: nat): nat {
    if a == 0 || b == 0 then 0
    else 2 * BitAnd(a / 2, b / 2) + if a % 2 == 1 && b % 2 == 1 then 1 else 0
  }

  ghost predicate PowerOfTwo(n: nat) {
    n == 1 || (n > 0 && n % 2 == 0 && PowerOfTwo(n / 2))
  }

  /** The constructor's test: a capacity it accepts. */
  predicate CapacityAccepted(c: nat) {
    c != 0 && BitAnd(c, c - 1) == 0
  }

  lemma {:induction false} CapacityCheckExact(c: nat)
    ensures CapacityAccepted(c) <==> PowerOfTwo(c)
  {
    if c > 1 {
      CapacityCheckExact(c / 2);
      if c % 2 == 0 {
        assert (c - 1) / 2 == c / 2 - 1 && (c - 1) % 2 == 1;
      } else {
        assert (c - 1) / 2 == c / 2 && (c - 1) % 2 == 0;
        SelfAnd(c / 2);
      }
    }
  }

  lemma {:induction false} SelfAnd(a: nat)
    ensures BitAnd(a, a) == a
  {
    if a > 0 {
      SelfAnd(a / 2);
    }
  }

  /** Masking with capacity - 1 is the remainder modulo a power of two. */
  lemma {:induction false} MaskIsRemainder(x: nat, c: nat)
    requires PowerOfTwo(c)
    ensures BitAnd(x, c - 1) == x % c
    decreases c
  {
    if c > 1 {
      var d := c / 2;
      MaskIsRemainder(x / 2, d);
      assert (c - 1) / 2 == d - 1 && (c - 1) % 2 == 1;
      HalvesOfRemainder(x, d);
      if x == 0 {
        assert 0 % c == 0;
      }
    }
  }

  lemma HalvesOfRemainder(x: nat, d: nat)
    requires d > 0
    ensures x % (2 * d) == 2 * ((x / 2) % d) + x % 2
  {
    var q, r := (x / 2) / d, (x / 2) % d;
    assert x / 2 == q * d + r;
    assert x == 2 * (q * d + r) + x % 2;
    var s := 2 * r + x % 2;
    assert x == q * (2 * d) + s && 0 <= s < 2 * d;
    Remainder(x, q, 2 * d, s);
  }

  /** No multiple of d lies strictly between 0 and d on either side. */
  lemma SmallMultiple(n: int, d: int)
    requires d > 0 && -d < n * d < d
    ensures n == 0
  {
    assert n >= 1 ==> (n - 1) * d >= 0;
    assert n <= -1 ==> (-1 - n) * d >= 0;
  }

  lemma Remainder(x: int, q: int, d: int, s: int)
    requires x == q * d + s && 0 <= s < d
    ensures x % d == s
  {
    var k, r := x / d, x % d;
    assert x == k * d + r;
    assert (k - q) * d == k * d - q * d;
    SmallMultiple(k - q, d);
  }

  /** Counts less than a capacity apart fall on different slots. */
  lemma SlotsDiffer(a: nat, b: nat, c: nat)
    requires a < b < a + c
    ensures a % c != b % c
  {
    var i, j := a / c, b / c;
    assert a == i * c + a % c && b == j * c + b % c;
    assert (j - i) * c == j * c - i * c;
    if 0 - c < (j - i) * c < c {
      SmallMultiple(j - i, c);
    }
  }

  lemma NextSlot(k: nat, c: nat)
    requires c > 0
    ensures (k % c + 1) % c == (k + 1) % c
  {
    var q, r := k / c, k % c;
    assert k == q * c + r;
    if r + 1 < c {
      Remainder(k + 1, q, c, r + 1);
    } else {
      assert k + 1 == (q + 1) * c;
      Remainder(k + 1, q + 1, c, 0);
    }
  }

  // ----- the two threads -----

  datatype Producer<T> =
    | Resting
    | HeadLoaded(value: T, head: nat)
    | RoomSeen(value: T, head: nat, next: nat)
    | SlotWritten(value: T, next: nat)

  datatype Consumer<T> =
    | Waiting
    | TailLoaded(tail: nat)
    | DataSeen(tail: nat)
    | Moved(tail: nat, out: T)
    | Cleared(tail: nat, out: T)

  /**
   `buffer`, `head` and `tail` are the shared memory.  The rest of the record is
   history: everything published and consumed, how far each side has seen the
   other's index, and whether a slot was ever misused.
   */
  datatype Ring<T> = Ring(
    buffer: seq<Option<T>>, head: nat, tail: nat, producer: Producer<T>, consumer: Consumer<T>,
    pushed: seq<T>, popped: seq<T>, seenTail: nat, seenHead: nat, fault: bool)

  datatype Step<T> =
    | StartPush(value: T)
    | ObserveTail(count: nat)
    | WriteSlot
    | PublishHead
    | StartPop
    | ObserveHead(count: nat)
    | MoveOut
    | ClearSlot
    | PublishTail

  function Capacity<T>(s: Ring<T>): nat {
    |s.buffer|
  }

  function Init<T>(capacity: nat): Ring<T> {
    Ring(seq(capacity, _ => None), 0, 0, Resting, Waiting, [], [], 0, 0, false)
  }

  predicate Enabled<T>(s: Ring<T>, step: Step<T>) {
    match step
    case StartPush(_) => s.producer.Resting?
    case ObserveTail(k) => s.producer.HeadLoaded? && s.seenTail <= k <= |s.popped|
    case WriteSlot => s.producer.RoomSeen? && s.producer.head < |s.buffer|
    case PublishHead => s.producer.SlotWritten?
    case StartPop => s.consumer.Waiting?
    case ObserveHead(k) => s.consumer.TailLoaded? && s.seenHead <= k <= |s.pushed|
    case MoveOut => s.consumer.DataSeen? && s.consumer.tail < |s.buffer| && |s.popped| < |s.pushed|
    case ClearSlot => s.consumer.Moved? && s.consumer.tail < |s.buffer|
    case PublishTail => s.consumer.Cleared?
  }

  function Apply<T>(s: Ring<T>, step: Step<T>): Ring<T>
    requires Capacity(s) > 0 && Enabled(s, step)
  {
    var mask := Capacity(s) - 1;
    match step
    case StartPush(v) => s.(producer := HeadLoaded(v, s.head))
    case ObserveTail(k) =>
      var next := BitAnd(s.producer.head + 1, mask);
      s.(seenTail := k,
         producer := if next == k % Capacity(s) then Resting else RoomSeen(s.producer.value, s.producer.head, next))
    case WriteSlot =>
      s.(fault := s.fault || s.buffer[s.producer.head].Some?,
         buffer := s.buffer[s.producer.head := Some(s.producer.value)],
         producer := SlotWritten(s.producer.value, s.producer.next))
    case PublishHead =>
      s.(head := s.producer.next, pushed := s.pushed + [s.producer.value], producer := Resting)
    case StartPop => s.(consumer := TailLoaded(s.tail))
    case ObserveHead(k) =>
      s.(seenHead := k,
         consumer := if s.consumer.tail == k % Capacity(s) then Waiting else DataSeen(s.consumer.tail))
    case MoveOut =>
      var slot := s.buffer[s.consumer.tail];
      s.(fault := s.fault || slot.None?,
         consumer := Moved(s.consumer.tail, if slot.Some? then slot.value else s.pushed[|s.popped|]))
    case ClearSlot =>
      s.(buffer := s.buffer[s.consumer.tail := None], consumer := Cleared(s.consumer.tail, s.consumer.out))
    case PublishTail =>
      s.(tail := BitAnd(s.consumer.tail + 1, mask), popped := s.popped + [s.consumer.out], consumer := Waiting)
  }

  // ----- the invariant -----

  ghost predicate Indices<T>(s: Ring<T>) {
    var c, h, t := Capacity(s), |s.pushed|, |s.popped|;
    && PowerOfTwo(c) && c > 0
    && s.head == h % c && s.tail == t % c
    && s.popped <= s.pushed
    && s.seenTail <= t && h <= s.seenTail + c - 1
    && t <= s.seenHead <= h
    && !s.fault
  }

  ghost predicate ProducerOk<T>(s: Ring<T>) {
    var c, h := Capacity(s), |s.pushed|;
    match s.producer
    case Resting => true
    case HeadLoaded(_, head) => head == s.head
    case RoomSeen(_, head, next) => head == s.head && c > 0 && next == (h + 1) % c && h + 1 <= s.seenTail + c - 1
    case SlotWritten(_, next) => c > 0 && next == (h + 1) % c && h + 1 <= s.seenTail + c - 1
  }

  ghost predicate ConsumerOk<T>(s: Ring<T>) {
    var t := |s.popped|;
    match s.consumer
    case Waiting => true
    case TailLoaded(tail) => tail == s.tail
    case DataSeen(tail) => tail == s.tail && t < s.seenHead
    case Moved(tail, out) => tail == s.tail && t < s.seenHead && t < |s.pushed| && out == s.pushed[t]
    case Cleared(tail, out) => tail == s.tail && t < s.seenHead && t < |s.pushed| && out == s.pushed[t]
  }

  /** What slot k of the endless tape holds while k is within one lap of the tail. */
  ghost function Expected<T>(s: Ring<T>, k: nat): Option<T>
    requires k < |s.pushed| + 1
  {
    if k == |s.pushed| then
      if s.producer.SlotWritten? then Some(s.producer.value) else None
    else if k == |s.popped| && s.consumer.Cleared? then None
    else Some(s.pushed[k])
  }

  ghost predicate SlotsOk<T>(s: Ring<T>) {
    var c, h, t := Capacity(s), |s.pushed|, |s.popped|;
    c > 0 && forall k :: t <= k < t + c ==> SlotOk(s, k)
  }

  ghost predicate SlotOk<T>(s: Ring<T>, k: nat)
    requires Capacity(s) > 0
  {
    s.buffer[k % Capacity(s)] == if k <= |s.pushed| then Expected(s, k) else None
  }

  ghost predicate Inv<T>(s: Ring<T>) {
    Indices(s) && ProducerOk(s) && ConsumerOk(s) && SlotsOk(s)
  }

  lemma InitInv<T>(capacity: nat)
    requires CapacityAccepted(capacity)
    ensures Inv(Init<T>(capacity))
  {
    CapacityCheckExact(capacity);
  }

  /** Updating the slot of one count in the lap leaves the others alone. */
  lemma OtherSlots<T>(buffer: seq<Option<T>>, at: nat, x: Option<T>, t: nat)
    requires |buffer| > 0 && t <= at < t + |buffer|
    ensures forall k :: t <= k < t + |buffer| && k != at ==>
              buffer[at % |buffer| := x][k % |buffer|] == buffer[k % |buffer|]
  {
    forall k | t <= k < t + |buffer| && k != at
      ensures k % |buffer| != at % |buffer|
    {
      if k < at {
        SlotsDiffer(k, at, |buffer|);
      } else {
        SlotsDiffer(at, k, |buffer|);
      }
    }
  }

  /** A step that moves neither slots nor published counts keeps what the slots hold. */
  lemma SlotsStay<T>(s: Ring<T>, s': Ring<T>)
    requires SlotsOk(s) && s'.buffer == s.buffer && s'.pushed == s.pushed && s'.popped == s.popped
    requires s'.producer.SlotWritten? <==> s.producer.SlotWritten?
    requires s.producer.SlotWritten? ==> s'.producer == s.producer
    requires s'.consumer.Cleared? <==> s.consumer.Cleared?
    ensures SlotsOk(s')
  {
    var c, t := Capacity(s), |s.popped|;
    forall k | t <= k < t + c
      ensures SlotOk(s', k)
    {
      assert SlotOk(s, k);
    }
  }

  lemma StartPushKeeps<T>(s: Ring<T>, value: T)
    requires Inv(s) && Enabled(s, StartPush(value))
    ensures Inv(Apply(s, StartPush(value)))
  {
    hide SlotsOk;
    SlotsStay(s, Apply(s, StartPush(value)));
  }

  lemma ObserveTailKeeps<T>(s: Ring<T>, k: nat)
    requires Inv(s) && Enabled(s, ObserveTail(k))
    ensures Inv(Apply(s, ObserveTail(k)))
  {
    hide SlotsOk;
    var c, h := Capacity(s), |s.pushed|;
    MaskIsRemainder(s.head + 1, c);
    NextSlot(h, c);
    if h + 1 == k + c {
      Wrap(k, c);
    }
    SlotsStay(s, Apply(s, ObserveTail(k)));
  }

  lemma StartPopKeeps<T>(s: Ring<T>)
    requires Inv(s) && Enabled(s, StartPop)
    ensures Inv(Apply(s, StartPop))
  {
    hide SlotsOk;
    SlotsStay(s, Apply(s, StartPop));
  }

  lemma ObserveHeadKeeps<T>(s: Ring<T>, k: nat)
    requires Inv(s) && Enabled(s, ObserveHead(k))
    ensures Inv(Apply(s, ObserveHead(k)))
  {
    hide SlotsOk;
    SlotsStay(s, Apply(s, ObserveHead(k)));
  }

  lemma MoveOutKeeps<T>(s: Ring<T>)
    requires Inv(s) && Enabled(s, MoveOut)
    ensures Inv(Apply(s, MoveOut))
  {
    assert SlotOk(s, |s.popped|);
    hide SlotsOk;
    SlotsStay(s, Apply(s, MoveOut));
  }

  /** Every load, slot access and store of either thread keeps the invariant. */
  lemma StepKeeps<T>(s: Ring<T>, step: Step<T>)
    requires Inv(s) && Enabled(s, step)
    ensures Inv(Apply(s, step))
  {
    hide Inv, Apply, Enabled;
    match step
    case StartPush(value) => StartPushKeeps(s, value);
    case ObserveTail(k) => ObserveTailKeeps(s, k);
    case WriteSlot => WriteSlotKeeps(s);
    case PublishHead => PublishHeadKeeps(s);
    case StartPop => StartPopKeeps(s);
    case ObserveHead(k) => ObserveHeadKeeps(s, k);
    case MoveOut => MoveOutKeeps(s);
    case ClearSlot => ClearSlotKeeps(s);
    case PublishTail => PublishTailKeeps(s);
  }

  /** The guards of the slot accesses exclude nothing: a thread that has come to one can always take it. */
  lemma SlotAccessNeverBlocks<T>(s: Ring<T>)
    requires Inv(s)
    ensures s.producer.RoomSeen? ==> Enabled(s, WriteSlot)
    ensures s.consumer.DataSeen? ==> Enabled(s, MoveOut)
    ensures s.consumer.Moved? ==> Enabled(s, ClearSlot)
  {
  }

  lemma Wrap(k: nat, c: nat)
    requires c > 0
    ensures (k + c) % c == k % c
  {
    var q, r := k / c, k % c;
    assert k + c == (q + 1) * c + r;
    Remainder(k + c, q + 1, c, r);
  }

  lemma WriteSlotKeeps<T>(s: Ring<T>)
    requires Inv(s) && Enabled(s, WriteSlot)
    ensures Inv(Apply(s, WriteSlot))
  {
    var c, h, t := Capacity(s), |s.pushed|, |s.popped|;
    var s' := Apply(s, WriteSlot);
    assert SlotOk(s, h);
    OtherSlots(s.buffer, h, Some(s.producer.value), t);
    forall k | t <= k < t + c
      ensures SlotOk(s', k)
    {
      assert SlotOk(s, k);
    }
  }

  lemma PublishHeadKeeps<T>(s: Ring<T>)
    requires Inv(s) && Enabled(s, PublishHead)
    ensures Inv(Apply(s, PublishHead))
  {
    var c, h, t := Capacity(s), |s.pushed|, |s.popped|;
    var s' := Apply(s, PublishHead);
    forall k | t <= k < t + c
      ensures SlotOk(s', k)
    {
      assert SlotOk(s, k);
    }
  }

  lemma ClearSlotKeeps<T>(s: Ring<T>)
    requires Inv(s) && Enabled(s, ClearSlot)
    ensures Inv(Apply(s, ClearSlot))
  {
    var c, h, t := Capacity(s), |s.pushed|, |s.popped|;
    var s' := Apply(s, ClearSlot);
    OtherSlots(s.buffer, t, None, t);
    forall k | t <= k < t + c
      ensures SlotOk(s', k)
    {
      assert SlotOk(s, k);
    }
  }

  lemma PublishTailKeeps<T>(s: Ring<T>)
    requires Inv(s) && Enabled(s, PublishTail)
    ensures Inv(Apply(s, PublishTail))
  {
    var c, h, t := Capacity(s), |s.pushed|, |s.popped|;
    var s' := Apply(s, PublishTail);
    MaskIsRemainder(s.tail + 1, c);
    NextSlot(t, c);
    assert SlotOk(s, t);
    Wrap(t, c);
    assert s.pushed[..t] == s.popped;
    assert s'.popped == s.pushed[..t + 1];
    forall k | t + 1 <= k < t + 1 + c
      ensures SlotOk(s', k)
    {
      if k < t + c {
        assert SlotOk(s, k);
      }
    }
  }

  // ----- what every interleaving guarantees -----

  /** A run: every step is enabled when it is taken. */
  ghost predicate IsRun<T>(states: seq<Ring<T>>, steps: seq<Step<T>>) {
    && |states| == |steps| + 1
    && CapacityAccepted(Capacity(states[0])) && states[0] == Init(Capacity(states[0]))
    && forall i :: 0 <= i < |steps| ==>
         Capacity(states[i]) > 0 && Enabled(states[i], steps[i]) && states[i + 1] == Apply(states[i], steps[i])
  }

  lemma {:induction false} RunKeeps<T>(states: seq<Ring<T>>, steps: seq<Step<T>>, n: nat)
    requires IsRun(states, steps) && n < |states|
    ensures Inv(states[n])
  {
    if n == 0 {
      InitInv<T>(Capacity(states[0]));
    } else {
      RunKeeps(states, steps, n - 1);
      StepKeeps(states[n - 1], steps[n - 1]);
    }
  }

  /**
   In every interleaving, popped values are a prefix of pushed ones, at most
   capacity - 1 are in flight, no empty slot is read and no unread one written.
   */
  lemma RingIsBoundedFifo<T>(states: seq<Ring<T>>, steps: seq<Step<T>>, n: nat)
    requires IsRun(states, steps) && n < |states|
    ensures var s := states[n];
            && s.popped <= s.pushed
            && |s.pushed| - |s.popped| <= Capacity(s) - 1
            && !s.fault
  {
    RunKeeps(states, steps, n);
  }

  /** The two threads never have accesses to the same slot pending at once. */
  lemma NoSlotRace<T>(states: seq<Ring<T>>, steps: seq<Step<T>>, n: nat)
    requires IsRun(states, steps) && n < |states|
    requires states[n].producer.RoomSeen? && (states[n].consumer.DataSeen? || states[n].consumer.Moved?)
    ensures states[n].producer.head != states[n].consumer.tail
  {
    RunKeeps(states, steps, n);
    var s := states[n];
    SlotsDiffer(|s.popped|, |s.pushed|, Capacity(s));
  }

  /** The values in flight. */
  function InFlight<T>(s: Ring<T>): seq<T>
    requires |s.popped| <= |s.pushed|
  {
    s.pushed[|s.popped|..]
  }

  /** Each step is an enqueue at the back of a queue with room, a dequeue of its front, or invisible. */
  lemma StepsAreQueueOperations<T>(s: Ring<T>, step: Step<T>)
    requires Inv(s) && Enabled(s, step)
    ensures var s' := Apply(s, step);
            && |s'.popped| <= |s'.pushed|
            && match step
               case PublishHead => InFlight(s') == InFlight(s) + [s.producer.value] && |InFlight(s)| < Capacity(s) - 1
               case PublishTail => InFlight(s) == [s.consumer.out] + InFlight(s')
               case _ => InFlight(s') == InFlight(s)
  {
    StepKeeps(s, step);
    match step
    case PublishHead =>
    case PublishTail =>
      var t := |s.popped|;
      assert s.pushed[t..] == [s.pushed[t]] + s.pushed[t + 1..];
    case _ =>
  }

  /** A push is refused exactly when the tail it observes leaves no room, and a pop when it observes no data. */
  lemma RefusalsAreExact<T>(s: Ring<T>, k: nat)
    requires Inv(s)
    ensures Enabled(s, ObserveTail(k)) ==>
              (Apply(s, ObserveTail(k)).producer.Resting? <==> |s.pushed| - k == Capacity(s) - 1)
    ensures Enabled(s, ObserveHead(k)) ==>
              (Apply(s, ObserveHead(k)).consumer.Waiting? <==> k == |s.popped|)
  {
    var c, h, t := Capacity(s), |s.pushed|, |s.popped|;
    if Enabled(s, ObserveTail(k)) {
      MaskIsRemainder(s.head + 1, c);
      NextSlot(h, c);
      if h + 1 == k + c {
        Wrap(k, c);
      } else {
        SlotsDiffer(k, h + 1, c);
      }
    }
    if Enabled(s, ObserveHead(k)) && k != t {
      SlotsDiffer(t, k, c);
    }
  }

  // ----- the calls themselves, when the other thread does not interfere -----

  /** Both threads are between calls. */
  ghost predicate Quiet<T>(s: Ring<T>) {
    s.producer.Resting? && s.consumer.Waiting?
  }

  ghost predicate InRange<T>(s: Ring<T>) {
    && Capacity(s) > 0 && s.head < Capacity(s) && s.tail < Capacity(s)
    && s.tail == |s.popped| % Capacity(s) && s.head == |s.pushed| % Capacity(s)
    && s.seenTail <= |s.popped| <= s.seenHead <= |s.pushed| && s.popped <= s.pushed
    && !s.fault
  }

  lemma IndicesInRange<T>(s: Ring<T>)
    requires Inv(s)
    ensures InRange(s)
  {
  }

  /** `push` and `pop` in full; the ghost field follows them through the steps above. */
  class Buffer<T> {
    const slots: array<Option<T>>
    const mask: nat
    var head: nat
    var tail: nat
    ghost var ring: Ring<T>

    constructor (capacity: nat)
      requires CapacityAccepted(capacity)
      ensures Valid() && ring == Init(capacity) && fresh(slots)
    {
      slots := new Option<T>[capacity](_ => None);
      mask, head, tail := capacity - 1, 0, 0;
      ring := Init(capacity);
      new;
      assert slots[..] == ring.buffer;
      InitInv<T>(capacity);
    }

    ghost predicate Valid()
      reads this, slots
    {
      Synced() && Quiet(ring)
    }

    /** The values that wait in the ring, oldest first. */
    ghost function Waiting(): seq<T>
      reads this
    {
      if |ring.popped| <= |ring.pushed| then InFlight(ring) else []
    }

    ghost function Room(): nat
      reads this
    {
      Capacity(ring)
    }

    /** The ghost ring is the live one. */
    ghost predicate Synced()
      reads this, slots
    {
      && Inv(ring)
      && ring.buffer == slots[..] && ring.head == head && ring.tail == tail && mask == slots.Length - 1
    }

    method Push(value: T) returns (pushed: bool)
      requires Valid()
      modifies this, slots
      ensures Valid() && Capacity(ring) == old(Capacity(ring))
      ensures pushed == (|InFlight(old(ring))| < Capacity(ring) - 1)
      ensures ring.popped == old(ring.popped)
      ensures ring.pushed == if pushed then old(ring.pushed) + [value] else old(ring.pushed)
      ensures Room() == old(Room()) && (pushed <==> |old(Waiting())| < Room() - 1)
      ensures Waiting() == if pushed then old(Waiting()) + [value] else old(Waiting())
    {
      hide Indices, SlotsOk, ConsumerOk, BitAnd;
      IndicesInRange(ring);
      var h := head;
      Advance(StartPush(value));
      var nextHead := BitAnd(h + 1, mask);
      var t := tail;
      RefusalsAreExact(ring, |ring.popped|);
      Advance(ObserveTail(|ring.popped|));
      if nextHead == t {
        return false;
      }
      PutIn(value, h, nextHead);
      return true;
    }

    /** The second half of `push`: write the slot, publish the head. */
    method PutIn(value: T, h: nat, nextHead: nat)
      requires Synced() && ring.consumer.Waiting? && ring.producer == RoomSeen(value, h, nextHead)
      modifies `head, `ring, slots
      ensures Valid() && Capacity(ring) == old(Capacity(ring)) && ring.popped == old(ring.popped)
      ensures ring.pushed == old(ring.pushed) + [value]
    {
      hide Indices, SlotsOk, ConsumerOk, BitAnd;
      IndicesInRange(ring);
      slots[h] := Some(value);
      Advance(WriteSlot);
      assert ring.buffer == slots[..];
      head := nextHead;
      Advance(PublishHead);
    }

    method Pop() returns (out: Option<T>)
      requires Valid()
      modifies this, slots
      ensures Valid() && Capacity(ring) == old(Capacity(ring)) && ring.pushed == old(ring.pushed)
      ensures out == if InFlight(old(ring)) == [] then None else Some(InFlight(old(ring))[0])
      ensures ring.popped == if out.Some? then old(ring.popped) + [out.value] else old(ring.popped)
      ensures Room() == old(Room()) && out == (if old(Waiting()) == [] then None else Some(old(Waiting())[0]))
      ensures Waiting() == if out.Some? then old(Waiting())[1..] else old(Waiting())
    {
      hide Indices, SlotsOk, ProducerOk, BitAnd;
      IndicesInRange(ring);
      var t := tail;
      Advance(StartPop);
      var h := head;
      RefusalsAreExact(ring, |ring.pushed|);
      Advance(ObserveHead(|ring.pushed|));
      if t == h {
        return None;
      }
      out := TakeOut(t);
    }

    /** The second half of `pop`: move the value out, reset the slot, publish the tail. */
    method TakeOut(t: nat) returns (out: Option<T>)
      requires Synced() && ring.producer.Resting? && ring.consumer == DataSeen(t)
      modifies `tail, `ring, slots
      ensures Valid() && Capacity(ring) == old(Capacity(ring)) && ring.pushed == old(ring.pushed)
      ensures |old(ring.popped)| < |ring.pushed| && out == Some(ring.pushed[|old(ring.popped)|])
      ensures ring.popped == old(ring.popped) + [out.value]
    {
      hide Indices, SlotsOk, ProducerOk, BitAnd;
      IndicesInRange(ring);
      out := slots[t];
      Advance(MoveOut);
      slots[t] := None;
      Advance(ClearSlot);
      assert ring.buffer == slots[..];
      tail := BitAnd(t + 1, mask);
      Advance(PublishTail);
    }

    ghost method Advance(step: Step<T>)
      requires Inv(ring) && Enabled(ring, step)
      modifies `ring
      ensures Inv(ring) && ring == Apply(old(ring), step) && InRange(ring)
    {
      StepKeeps(ring, step);
      ring := Apply(ring, step);
      IndicesInRange(ring);
    }
  }

  /** Construction with the capacity test: a capacity that is not a power of two is refused. */
  method Create<T>(capacity: nat) returns (ring: Buffer?<T>)
    ensures ring == null <==> !PowerOfTwo(capacity)
    ensures ring != null ==> fresh(ring) && fresh(ring.slots) && ring.Valid() && ring.ring == Init(capacity)
    ensures ring != null ==> ring.Waiting() == [] && ring.Room() == capacity
  {
    CapacityCheckExact(capacity);
    if capacity == 0 || BitAnd(capacity, capacity - 1) != 0 {
      return null;
    }
    ring := new Buffer(capacity);
  }
}
