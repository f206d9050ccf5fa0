/**
 The core NATS import (`src/importer.c`): a producer thread copies messages into a bounded ring, the
 loop thread drains it. Each step is one critical section of the importer's lock, or what a thread
 does between two of them; any interleaving is a run.
 */
module Importer {
  import opened Bytes
  import opened Subjects
  import LastValues
  import Receive
  import Windows

  datatype Msg = Msg(subject: Slice, payload: Slice)

  function Size(m: Msg): nat {
    |m.subject| + |m.payload|
  }

  /** What `import_queue_msg` lets into the ring. */
  predicate Admissible(m: Msg) {
    |m.payload| <= Receive.MAX_PAYLOAD && SubjectValid(m.subject, false) &&
    !(LastValues.LVC_PREFIX <= m.subject) && !(LastValues.STATS_PREFIX <= m.subject)
  }

  /** Where the loop thread is in `mb_importer_drain`. */
  datatype Drain =
    | Idle
    | AtTop                  // about to lock and look at the head slot
    | Measured(total: nat)   // unlocked; the scratch buffer has been reserved for `total` bytes
    | Holding(m: Msg)        // the message has been copied out and popped

  datatype Counters = Counters(pendingReceived: nat, pendingDropped: nat, received: nat, dropped: nat, processed: nat, failed: nat)

  /** `accepted` and `handled` record which messages entered the ring and which reached the handler. */
  datatype State = State(
    ring: seq<Msg>, head: nat, len: nat, counters: Counters, closing: bool, asyncPending: bool, drain: Drain,
    accepted: seq<Msg>, handled: seq<Msg>)

  predicate WellFormed(s: State) {
    s.len <= |s.ring| && (|s.ring| > 0 ==> s.head < |s.ring|)
  }

  function Queue(s: State): seq<Msg>
    requires WellFormed(s)
  {
    Windows.Unroll(s.ring, s.head, s.len)
  }

  function Init(ring: seq<Msg>): State {
    State(ring, 0, 0, Counters(0, 0, 0, 0, 0, 0), false, false, Idle, [], [])
  }

  datatype Step =
    | Reject                  // null subject, bad length or an origin header
    | Offer(m: Msg)
    | AsyncCallback
    | Look
    | Take
    | Handle(ok: bool)
    | BeginClose

  function CountDrop(c: Counters): Counters {
    c.(pendingReceived := c.pendingReceived + 1, pendingDropped := c.pendingDropped + 1)
  }

  /** `import_flush_pending_counters`. */
  function Flush(c: Counters): Counters {
    c.(received := c.received + c.pendingReceived, dropped := c.dropped + c.pendingDropped,
       pendingReceived := 0, pendingDropped := 0)
  }

  /** `import_record_drop`, and the drop branches of `import_queue_msg`. */
  function Dropped(s: State): State {
    s.(counters := CountDrop(s.counters), asyncPending := s.asyncPending || !s.closing)
  }

  function Next(s: State, step: Step): State
    requires WellFormed(s)
  {
    match step
    case Reject => Dropped(s)
    case Offer(m) =>
      if !Admissible(m) || s.closing || s.len >= |s.ring| then Dropped(s)
      else
        s.(counters := s.counters.(pendingReceived := s.counters.pendingReceived + 1),
           ring := s.ring[Windows.At(s.head, s.len, |s.ring|) := m], len := s.len + 1,
           asyncPending := true, accepted := s.accepted + [m])
    case AsyncCallback =>
      if s.drain == Idle && s.asyncPending && !s.closing then s.(asyncPending := false, drain := AtTop) else s
    case Look =>
      if s.drain != AtTop then s
      else
        s.(counters := Flush(s.counters),
           drain := if s.len == 0 then Idle else Measured(Size(s.ring[s.head])))
    case Take =>
      if !s.drain.Measured? then s
      else if s.len == 0 then s.(counters := Flush(s.counters), drain := AtTop)
      else
        s.(counters := Flush(s.counters), head := Windows.At(s.head, 1, |s.ring|), len := s.len - 1,
           drain := Holding(s.ring[s.head]))
    case Handle(ok) =>
      if !s.drain.Holding? then s
      else
        s.(counters := if ok then s.counters.(processed := s.counters.processed + 1)
                       else s.counters.(failed := s.counters.failed + 1),
           handled := s.handled + [s.drain.m], drain := AtTop)
    case BeginClose => if s.drain == Idle then s.(closing := true, counters := Flush(s.counters)) else s
  }

  // ----- the invariant -----

  function InFlight(s: State): seq<Msg> {
    if s.drain.Holding? then [s.drain.m] else []
  }

  /** Every message seen is in exactly one place. */
  predicate Balanced(s: State) {
    var c := s.counters;
    c.pendingDropped <= c.pendingReceived &&
    c.received + c.pendingReceived == c.processed + c.failed + c.dropped + c.pendingDropped + s.len + |InFlight(s)|
  }

  /** First in, first out, exactly once. */
  predicate Fifo(s: State)
    requires WellFormed(s)
  {
    s.accepted == s.handled + (InFlight(s) + Queue(s))
  }

  /** The slot measured before the lock was released is still the head, and still that size. */
  predicate StillMeasured(s: State)
    requires WellFormed(s)
  {
    s.drain.Measured? ==> s.len > 0 && s.drain.total == Size(s.ring[s.head])
  }

  /** Queued work and unflushed counts have a wake-up pending, or a drain that will see them. */
  predicate WillDrain(s: State) {
    !s.closing && (s.len > 0 || s.counters.pendingReceived > 0) ==> s.asyncPending || s.drain != Idle
  }

  predicate Inv(s: State) {
    WellFormed(s) && Balanced(s) && Fifo(s) && StillMeasured(s) && WillDrain(s)
  }

  lemma {:induction false} OfferKeeps(s: State, m: Msg)
    requires Inv(s)
    ensures Inv(Next(s, Offer(m)))
  {
    if Admissible(m) && !s.closing && s.len < |s.ring| {
      Windows.UnrollPush(s.ring, s.head, s.len, m);
      assert s.handled + (InFlight(s) + (Queue(s) + [m])) == s.handled + (InFlight(s) + Queue(s)) + [m];
    }
  }

  lemma {:induction false} TakeKeeps(s: State)
    requires Inv(s)
    ensures Inv(Next(s, Take))
  {
    if s.drain.Measured? {
      Windows.UnrollPop(s.ring, s.head, s.len);
      assert Queue(s) == [s.ring[s.head]] + Queue(s)[1..];
      assert [] + Queue(s) == Queue(s);
    }
  }

  lemma {:induction false} HandleKeeps(s: State, ok: bool)
    requires Inv(s)
    ensures Inv(Next(s, Handle(ok)))
  {
    if s.drain.Holding? {
      assert s.handled + ([s.drain.m] + Queue(s)) == (s.handled + [s.drain.m]) + ([] + Queue(s));
    }
  }

  lemma {:induction false} InvStep(s: State, step: Step)
    requires Inv(s)
    ensures Inv(Next(s, step))
  {
    match step
    case Offer(m) => OfferKeeps(s, m);
    case Take => TakeKeeps(s);
    case Handle(ok) => HandleKeeps(s, ok);
    case _ =>
  }

  /** A run from an importer with this ring. */
  function Run(ring: seq<Msg>, steps: seq<Step>): (s: State)
    ensures Inv(s)
  {
    if steps == [] then Init(ring)
    else
      var s := Run(ring, steps[..|steps| - 1]);
      InvStep(s, steps[|steps| - 1]);
      Next(s, steps[|steps| - 1])
  }

  // ----- what it means -----

  /** In every run, the handler has seen a prefix of the accepted messages, in order; the rest are in flight or queued. */
  lemma {:induction false} FifoExactlyOnce(ring: seq<Msg>, steps: seq<Step>)
    ensures var s := Run(ring, steps);
      s.handled <= s.accepted && s.accepted[|s.handled|..] == InFlight(s) + Queue(s) && |Queue(s)| <= |ring|
  {
    RingSize(ring, steps);
  }

  lemma {:induction false} RingSize(ring: seq<Msg>, steps: seq<Step>)
    ensures |Run(ring, steps).ring| == |ring|
  {
    if steps != [] {
      RingSize(ring, steps[..|steps| - 1]);
      StepSize(Run(ring, steps[..|steps| - 1]), steps[|steps| - 1]);
    }
  }

  lemma {:induction false} StepSize(s: State, step: Step)
    requires Inv(s)
    ensures |Next(s, step).ring| == |s.ring|
  {
  }

  /** When the loop thread is between drains with nothing queued, every accepted message has been handled and the counters add up. */
  lemma {:induction false} QuietMeansDone(ring: seq<Msg>, steps: seq<Step>)
    requires var s := Run(ring, steps); s.drain == Idle && !s.asyncPending && !s.closing
    ensures var s := Run(ring, steps);
      s.handled == s.accepted && s.counters.pendingReceived == 0 &&
      s.counters.received == s.counters.processed + s.counters.failed + s.counters.dropped
  {
    var s := Run(ring, steps);
    assert Queue(s) == [];
  }

  /** The copy made after re-locking takes exactly the bytes reserved before, whatever ran in between. */
  lemma {:induction false} CopyFits(ring: seq<Msg>, steps: seq<Step>)
    requires Run(ring, steps).drain.Measured?
    ensures var s := Run(ring, steps);
      Next(s, Take).drain.Holding? && Size(Next(s, Take).drain.m) == s.drain.total
  {
  }

  /**
   In every run: a message goes into the ring exactly when the importer is not closing, the ring has
   room, and its payload and subject are acceptable; otherwise it is counted as dropped.
   */
  lemma {:induction false} AcceptedExactly(ring: seq<Msg>, steps: seq<Step>, m: Msg)
    ensures var s := Run(ring, steps);
      var s' := Next(s, Offer(m));
      if !s.closing && |Queue(s)| < |ring| && |m.payload| <= Receive.MAX_PAYLOAD && SubjectValid(m.subject, false) &&
         !(LastValues.LVC_PREFIX <= m.subject) && !(LastValues.STATS_PREFIX <= m.subject)
      then s'.accepted == s.accepted + [m] && s'.counters.pendingDropped == s.counters.pendingDropped && s'.asyncPending
      else s'.accepted == s.accepted && s'.counters.pendingDropped == s.counters.pendingDropped + 1
  {
    RingSize(ring, steps);
  }

  /** From any quiet state with something queued and a wake-up pending, the head of the queue reaches the handler. */
  lemma {:induction false} HeadGoesThrough(ring: seq<Msg>, steps: seq<Step>, ok: bool)
    requires var s := Run(ring, steps); s.drain == Idle && s.asyncPending && !s.closing && s.len > 0
    ensures var s := Run(ring, steps);
      var taken := Next(Next(Next(s, AsyncCallback), Look), Take);
      var s' := Next(taken, Handle(ok));
      taken.drain == Holding(Queue(s)[0]) && s'.handled == s.handled + [Queue(s)[0]] && s'.drain == AtTop && Queue(s') == Queue(s)[1..]
  {
    var s := Run(ring, steps);
    Windows.UnrollPop(s.ring, s.head, s.len);
  }

  // ----- what the counters count -----

  /** Messages offered or rejected. */
  function Seen(steps: seq<Step>): nat {
    if steps == [] then 0
    else
      var e := steps[|steps| - 1];
      Seen(steps[..|steps| - 1]) + if e.Offer? || e.Reject? then 1 else 0
  }

  /** Messages that the handler took with this result. */
  function HandledWith(ring: seq<Msg>, steps: seq<Step>, ok: bool): nat {
    if steps == [] then 0
    else
      var n := |steps| - 1;
      HandledWith(ring, steps[..n], ok) + if steps[n] == Handle(ok) && Run(ring, steps[..n]).drain.Holding? then 1 else 0
  }

  lemma {:induction false} CountStep(s: State, step: Step)
    requires Inv(s)
    ensures var c, c' := s.counters, Next(s, step).counters;
      c'.processed == c.processed + (if step == Handle(true) && s.drain.Holding? then 1 else 0) &&
      c'.failed == c.failed + (if step == Handle(false) && s.drain.Holding? then 1 else 0) &&
      c'.received + c'.pendingReceived == c.received + c.pendingReceived + (if step.Offer? || step.Reject? then 1 else 0) &&
      c'.dropped + c'.pendingDropped + |Next(s, step).accepted| ==
        c.dropped + c.pendingDropped + |s.accepted| + (if step.Offer? || step.Reject? then 1 else 0)
  {
  }

  /**
   In every run: received counts the messages seen, processed and failed those the handler took with
   success and without, and dropped those seen that were not accepted.
   */
  lemma {:induction false} CountersCount(ring: seq<Msg>, steps: seq<Step>)
    ensures var s := Run(ring, steps);
      var c := s.counters;
      c.received + c.pendingReceived == Seen(steps) && c.dropped + c.pendingDropped + |s.accepted| == Seen(steps) &&
      c.processed == HandledWith(ring, steps, true) && c.failed == HandledWith(ring, steps, false)
  {
    if steps != [] {
      var n := |steps| - 1;
      CountersCount(ring, steps[..n]);
      CountStep(Run(ring, steps[..n]), steps[n]);
    }
  }
}
