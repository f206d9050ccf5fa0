/**
 Clocked forms (`src/patchbay/pb_form_clocks.c`): debounce!, sample!, aggregate!, on-silence and
 dropout. A call arms a slot, a tick at or after the deadline fires it. What a fired body does is
 not modelled here; a firing is reported as an output.
 */
module Clocks {
  import opened Bytes
  import opened Windows

  datatype ClockKind = NoClock | OnSilence | Dropout | Debounce | Sampler | Aggregate

  datatype Metric = Avg | SumOf | Least | Most | Count | Rate

  /** The clock fields of a state slot; `live` says that its kind is CLOCK. */
  datatype Clock = Clock(
    live: bool, kind: ClockKind, interval: nat, deadline: nat, armed: bool, lost: bool,
    subject: Slice, payload: Slice, metric: Metric, bucket: seq<Sample>)

  const FRESH: Clock := Clock(false, NoClock, 0, 0, false, false, [], [], Avg, [])

  datatype Output =
    | Nothing
    | Published(subject: Slice, payload: Slice)
    | Computed(subject: Slice, value: real)
    | Silence(payload: Slice)
    | LostForm
    | FoundForm

  function Metrics(metric: Metric, bucket: seq<Sample>, interval: nat): real
    requires bucket != [] && interval > 0
  {
    match metric
    case Avg => Calculate(Xs(bucket), CalcAvg)
    case SumOf => Calculate(Xs(bucket), CalcSum)
    case Least => Calculate(Xs(bucket), CalcMin)
    case Most => Calculate(Xs(bucket), CalcMax)
    case Count => |bucket| as real
    case Rate => |bucket| as real * 1000.0 / interval as real
  }

  // ----- one call, one tick -----

  /** `retain_publish`: debounce! resets the deadline, sample! only sets a first one. */
  function Retain(c: Clock, kind: ClockKind, ms: nat, subject: Slice, payload: Slice, now: nat): Clock {
    c.(live := true, kind := kind, interval := ms, armed := true, subject := subject, payload := payload,
       deadline := if kind == Debounce || c.deadline == 0 then now + ms else c.deadline)
  }

  /** `call_aggregate`: the first call fixes the interval and the deadline. */
  function Gather(c: Clock, ms: nat, metric: Metric, subject: Slice, x: real, now: nat): Clock {
    var c' := if c.live then c else c.(kind := Aggregate, interval := ms, deadline := now + ms, armed := true);
    c'.(live := true, metric := metric, subject := subject, bucket := c.bucket + [Sample(now, x)])
  }

  /** `pb_eval_call_on_silence`. */
  function Rearm(c: Clock, ms: nat, payload: Slice, now: nat): Clock {
    c.(live := true, kind := OnSilence, interval := ms, armed := true, deadline := now + ms, payload := payload)
  }

  /** `pb_eval_call_dropout`: a call after a loss runs the found form. */
  function Heard(c: Clock, ms: nat, now: nat): (Clock, Output) {
    var c' := (if c.live then c else c.(live := true, kind := Dropout, interval := ms))
              .(armed := true, deadline := now + ms, lost := false);
    (c', if c.lost then FoundForm else Nothing)
  }

  predicate Due(c: Clock, now: nat) {
    c.live && c.armed && c.deadline <= now
  }

  /** `tick_clock_state_entry`. */
  function TickClock(c: Clock, now: nat): (Clock, Output)
    requires c.live ==> c.interval > 0
  {
    if !Due(c, now) then (c, Nothing)
    else
      match c.kind
      case NoClock => (c, Nothing)
      case OnSilence => (c.(armed := false), Silence(c.payload))
      case Dropout => (c.(armed := false, lost := true), LostForm)
      case Debounce => (c.(armed := false), Published(c.subject, c.payload))
      case Sampler => (c.(deadline := c.deadline + c.interval), Published(c.subject, c.payload))
      case Aggregate =>
        if c.bucket == [] then (c.(deadline := c.deadline + c.interval), Nothing)
        else (c.(deadline := c.deadline + c.interval, bucket := []),
              Computed(c.subject, Metrics(c.metric, c.bucket, c.interval)))
  }

  /** A clocked state slot. */
  class ClockSlot {
    var live: bool
    var kind: ClockKind
    var interval: nat
    var deadline: nat
    var armed: bool
    var lost: bool
    var subject: Slice
    var payload: Slice
    var metric: Metric
    const ring: Ring

    constructor ()
      ensures Valid() && fresh(ring) && fresh(ring.values) && fresh(ring.times) && State() == FRESH
    {
      live, kind, interval, deadline, armed, lost := false, NoClock, 0, 0, false, false;
      subject, payload, metric := [], [], Avg;
      ring := new Ring(true, 0, 0);
    }

    ghost predicate Valid()
      reads this, ring, ring.values
    {
      ring.Valid() && ring.timed && (live ==> interval > 0)
    }

    ghost function State(): Clock
      requires Valid()
      reads this, ring, ring.values, ring.times
    {
      Clock(live, kind, interval, deadline, armed, lost, subject, payload, metric, ring.Samples())
    }

    method RetainPublish(kind: ClockKind, ms: nat, subject: Slice, payload: Slice, reset: bool, now: nat)
      requires Valid() && ms > 0 && (reset <==> kind == Debounce)
      modifies this
      ensures Valid() && State() == Retain(old(State()), kind, ms, subject, payload, now)
    {
      ghost var w := ring.Samples();
      this.kind := kind;
      interval := ms;
      armed := true;
      if reset || deadline == 0 {
        deadline := now + ms;
      }
      this.subject := subject;
      this.payload := payload;
      live := true;
      assert ring.Samples() == w;
    }

    method CallAggregate(ms: nat, metric: Metric, subject: Slice, x: real, now: nat)
      requires Valid() && ms > 0
      modifies this, ring`values, ring`times, ring`start, ring`len, ring`sum, ring.values, ring.times
      ensures Valid() && State() == Gather(old(State()), ms, metric, subject, x, now)
    {
      if !live {
        kind := Aggregate;
        interval := ms;
        deadline := now + ms;
        armed := true;
      }
      this.metric := metric;
      this.subject := subject;
      ring.Append(x, now);
      live := true;
    }

    method CallOnSilence(ms: nat, payload: Slice, now: nat)
      requires Valid() && ms > 0 && (live ==> kind == OnSilence)
      modifies this
      ensures Valid() && State() == Rearm(old(State()), ms, payload, now)
    {
      if !live {
        kind := OnSilence;
      }
      interval := ms;
      armed := true;
      deadline := now + ms;
      this.payload := payload;
      live := true;
    }

    method CallDropout(ms: nat, now: nat) returns (out: Output)
      requires Valid() && ms > 0 && (live ==> kind == Dropout)
      modifies this
      ensures Valid() && (State(), out) == Heard(old(State()), ms, now)
    {
      if !live {
        live := true;
        kind := Dropout;
        interval := ms;
      }
      armed := true;
      deadline := now + ms;
      if lost {
        lost := false;
        return FoundForm;
      }
      out := Nothing;
    }

    /** The metric of the bucket, through the ring. */
    method ComputeMetric() returns (v: real)
      requires Valid() && ring.len > 0 && interval > 0
      ensures v == Metrics(metric, ring.Samples(), interval)
    {
      assert Xs(ring.Samples()) == ring.Values();
      match metric
      case Avg => v := ring.CalcRing(CalcAvg);
      case SumOf => v := ring.CalcRing(CalcSum);
      case Least => v := ring.CalcRing(CalcMin);
      case Most => v := ring.CalcRing(CalcMax);
      case Count => v := ring.len as real;
      case Rate => v := ring.len as real * 1000.0 / interval as real;
    }

    method Tick(now: nat) returns (out: Output)
      requires Valid()
      modifies this, ring`start, ring`len, ring`sum
      ensures Valid() && (State(), out) == TickClock(old(State()), now)
    {
      if !live || !armed || now < deadline {
        return Nothing;
      }
      match kind
      case NoClock => return Nothing;
      case OnSilence =>
        armed := false;
        return Silence(payload);
      case Dropout =>
        lost := true;
        armed := false;
        return LostForm;
      case Debounce =>
        armed := false;
        return Published(subject, payload);
      case Sampler =>
        deadline := deadline + interval;
        return Published(subject, payload);
      case Aggregate =>
        if ring.len == 0 {
          deadline := deadline + interval;
          return Nothing;
        }
        var v := ComputeMetric();
        ring.Reset();
        deadline := deadline + interval;
        return Computed(subject, v);
    }
  }

  // ----- aggregate!: every sample is in exactly one bucket -----

  datatype AggregateEvent = AddSample(t: nat, x: real, metric: Metric, subject: Slice) | AggregateTick(t: nat)

  /**
   A run of one slot: `pending` are the calls whose samples are in the ring, `buckets` those a metric
   has been computed of, `dues` the deadlines that did it, `outs` what was published.
   */
  datatype AggregateRun = AggregateRun(
    clock: Clock, pending: seq<AggregateEvent>, buckets: seq<seq<AggregateEvent>>, dues: seq<nat>, outs: seq<Output>)

  predicate AllAdds(es: seq<AggregateEvent>) {
    forall i :: 0 <= i < |es| ==> es[i].AddSample?
  }

  function SamplesOf(es: seq<AggregateEvent>): (w: seq<Sample>)
    requires AllAdds(es)
    ensures |w| == |es|
  {
    seq(|es|, i requires 0 <= i < |es| => Sample(es[i].t, es[i].x))
  }

  /** The clock holds the pending samples, and the metric and subject of the latest call. */
  predicate Pending(ms: nat, r: AggregateRun) {
    AllAdds(r.pending) && r.clock.bucket == SamplesOf(r.pending) &&
    (r.clock.live ==> r.clock.interval == ms && r.clock.armed && r.clock.kind == Aggregate) &&
    (!r.clock.live ==> r.pending == []) &&
    (r.pending != [] ==> var e := r.pending[|r.pending| - 1]; r.clock.metric == e.metric && r.clock.subject == e.subject)
  }

  function AggregateStep(ms: nat, r: AggregateRun, e: AggregateEvent): (r': AggregateRun)
    requires ms > 0 && Pending(ms, r)
    ensures Pending(ms, r')
  {
    match e
    case AddSample(t, x, metric, subject) =>
      r.(clock := Gather(r.clock, ms, metric, subject, x, t), pending := r.pending + [e])
    case AggregateTick(t) =>
      var (c, out) := TickClock(r.clock, t);
      if out.Computed?
      then AggregateRun(c, [], r.buckets + [r.pending], r.dues + [r.clock.deadline], r.outs + [out])
      else r.(clock := c)
  }

  function RunAggregate(ms: nat, events: seq<AggregateEvent>): (r: AggregateRun)
    requires ms > 0
    ensures Pending(ms, r)
  {
    if events == [] then AggregateRun(FRESH, [], [], [], [])
    else AggregateStep(ms, RunAggregate(ms, events[..|events| - 1]), events[|events| - 1])
  }

  /** The calls of a run. */
  function Adds(events: seq<AggregateEvent>): (es: seq<AggregateEvent>)
    ensures AllAdds(es)
  {
    if events == [] then []
    else
      var es, e := Adds(events[..|events| - 1]), events[|events| - 1];
      if e.AddSample? then es + [e] else es
  }

  /** The metric of a bucket is the one its last call asked for. */
  predicate ComputedOf(ms: nat, bucket: seq<AggregateEvent>, out: Output) {
    ms > 0 && bucket != [] && AllAdds(bucket) &&
    var last := bucket[|bucket| - 1];
    out == Computed(last.subject, Metrics(last.metric, SamplesOf(bucket), ms))
  }

  predicate Partitioned(ms: nat, r: AggregateRun, calls: seq<AggregateEvent>) {
    Flatten(r.buckets) + r.pending == calls && |r.outs| == |r.buckets| == |r.dues| &&
    forall i :: 0 <= i < |r.buckets| ==> ComputedOf(ms, r.buckets[i], r.outs[i])
  }

  lemma {:induction false} PartitionStep(ms: nat, r: AggregateRun, e: AggregateEvent, calls: seq<AggregateEvent>)
    requires ms > 0 && Pending(ms, r) && Partitioned(ms, r, calls)
    ensures Partitioned(ms, AggregateStep(ms, r, e), if e.AddSample? then calls + [e] else calls)
  {
    if e.AddSample? {
      assert Flatten(r.buckets) + (r.pending + [e]) == (Flatten(r.buckets) + r.pending) + [e];
    } else if TickClock(r.clock, e.t).1.Computed? {
      TickComputes(ms, r, e.t);
      PartitionTick(ms, r, TickClock(r.clock, e.t).1, calls);
    }
  }

  lemma {:induction false} TickComputes(ms: nat, r: AggregateRun, t: nat)
    requires ms > 0 && Pending(ms, r) && TickClock(r.clock, t).1.Computed?
    ensures ComputedOf(ms, r.pending, TickClock(r.clock, t).1)
  {
  }

  lemma {:induction false} PartitionTick(ms: nat, r: AggregateRun, out: Output, calls: seq<AggregateEvent>)
    requires Partitioned(ms, r, calls) && ComputedOf(ms, r.pending, out)
    ensures forall c: Clock :: Partitioned(ms, AggregateRun(c, [], r.buckets + [r.pending], r.dues + [r.clock.deadline], r.outs + [out]), calls)
  {
    FlattenSnoc(r.buckets, r.pending);
  }

  /** The computed buckets followed by the pending one are the calls, in order; each output is the metric of its bucket. */
  lemma {:induction false} AggregatePartition(ms: nat, events: seq<AggregateEvent>)
    requires ms > 0
    ensures var r := RunAggregate(ms, events);
      Flatten(r.buckets) + r.pending == Adds(events) && |r.outs| == |r.buckets| == |r.dues| &&
      forall i :: 0 <= i < |r.buckets| ==> ComputedOf(ms, r.buckets[i], r.outs[i])
    decreases |events|
  {
    if events != [] {
      var n := |events| - 1;
      AggregatePartition(ms, events[..n]);
      PartitionStep(ms, RunAggregate(ms, events[..n]), events[n], Adds(events[..n]));
    }
  }

  lemma {:induction false} FlattenSnoc(gs: seq<seq<AggregateEvent>>, g: seq<AggregateEvent>)
    ensures Flatten(gs + [g]) + [] == Flatten(gs) + g
  {
    assert (gs + [g])[..|gs|] == gs;
  }

  // ----- aggregate!: which window a bucket is -----

  predicate AggregateOrdered(events: seq<AggregateEvent>) {
    forall i, j :: 0 <= i < j < |events| ==> events[i].t <= events[j].t
  }

  type Pick = AggregateEvent -> bool

  /** The calls at times in [due - ms, due). */
  function Window(ms: nat, due: nat): Pick {
    (e: AggregateEvent) => due - ms <= e.t < due
  }

  function Picked(es: seq<AggregateEvent>, p: Pick): seq<AggregateEvent> {
    if es == [] then [] else Picked(es[..|es| - 1], p) + if p(es[|es| - 1]) then [es[|es| - 1]] else []
  }

  predicate Every(es: seq<AggregateEvent>, p: Pick) {
    forall i :: 0 <= i < |es| ==> p(es[i])
  }

  predicate No(es: seq<AggregateEvent>, p: Pick) {
    forall i :: 0 <= i < |es| ==> !p(es[i])
  }

  /** No call comes when the slot is due: the slot has been ticked in time. */
  predicate CallsTimely(ms: nat, events: seq<AggregateEvent>)
    requires ms > 0
  {
    events == [] ||
    var before, e := events[..|events| - 1], events[|events| - 1];
    CallsTimely(ms, before) && (e.AddSample? ==> !Due(RunAggregate(ms, before).clock, e.t))
  }

  /** Every call is in the bucket of its window. */
  predicate InPlace(ms: nat, r: AggregateRun) {
    |r.dues| == |r.buckets| &&
    (forall i :: 0 <= i < |r.buckets| ==> Every(r.buckets[i], Window(ms, r.dues[i]))) &&
    Every(r.pending, Window(ms, r.clock.deadline))
  }

  /** Windows do not overlap, the latest one has begun, and pending calls are not from before it. */
  predicate Spaced(ms: nat, r: AggregateRun, now: nat) {
    |r.dues| == |r.buckets| &&
    InOrder(r.dues, ms, r.clock.deadline) && (r.dues != [] ==> r.clock.live) &&
    (r.clock.live ==> r.clock.deadline <= now + ms) &&
    (forall i :: 0 <= i < |r.pending| ==> r.clock.deadline - ms <= r.pending[i].t)
  }

  lemma {:induction false} RunSpaced(ms: nat, events: seq<AggregateEvent>)
    requires ms > 0 && AggregateOrdered(events)
    ensures Spaced(ms, RunAggregate(ms, events), if events == [] then 0 else events[|events| - 1].t)
    decreases |events|
  {
    if events != [] {
      var before, e := events[..|events| - 1], events[|events| - 1];
      RunSpaced(ms, before);
      SpacedStep(ms, RunAggregate(ms, before), e, if before == [] then 0 else before[|before| - 1].t);
    }
  }

  lemma {:induction false} SpacedStep(ms: nat, r: AggregateRun, e: AggregateEvent, now: nat)
    requires ms > 0 && Pending(ms, r) && Spaced(ms, r, now) && now <= e.t
    ensures Spaced(ms, AggregateStep(ms, r, e), e.t)
  {
    if e.AddSample? {
      if !r.clock.live {
        assert r.dues == [] && r.pending == [];
      }
    } else if TickClock(r.clock, e.t).1.Computed? {
      InOrderSnoc(r.dues, ms, r.clock.deadline);
    }
  }

  lemma {:induction false} InOrderSnoc(dues: seq<nat>, ms: nat, deadline: nat)
    requires InOrder(dues, ms, deadline)
    ensures InOrder(dues + [deadline], ms, deadline + ms)
  {
  }

  lemma {:induction false} InPlaceExactly(ms: nat, events: seq<AggregateEvent>)
    requires ms > 0 && AggregateOrdered(events)
    ensures InPlace(ms, RunAggregate(ms, events)) <==> CallsTimely(ms, events)
    decreases |events|
  {
    if events != [] {
      var before, e := events[..|events| - 1], events[|events| - 1];
      InPlaceExactly(ms, before);
      RunSpaced(ms, before);
      InPlaceStep(ms, RunAggregate(ms, before), e, if before == [] then 0 else before[|before| - 1].t);
    }
  }

  /** One event: only a call at a due slot puts something out of place, for good. */
  lemma {:induction false} InPlaceStep(ms: nat, r: AggregateRun, e: AggregateEvent, now: nat)
    requires ms > 0 && Pending(ms, r) && Spaced(ms, r, now) && now <= e.t
    ensures InPlace(ms, AggregateStep(ms, r, e)) <==> InPlace(ms, r) && (e.AddSample? ==> !Due(r.clock, e.t))
  {
    var r' := AggregateStep(ms, r, e);
    match e
    case AddSample(_, _, _, _) =>
      var p := Window(ms, r'.clock.deadline);
      assert Every(r'.pending, p) <==> Every(r.pending, p) && p(e) by {
        assert r'.pending[|r.pending|] == e;
        assert forall i :: 0 <= i < |r.pending| ==> r'.pending[i] == r.pending[i];
      }
    case AggregateTick(t) =>
      if r'.buckets != r.buckets {
        assert r'.buckets[|r.buckets|] == r.pending;
        assert forall i :: 0 <= i < |r.buckets| ==> r'.buckets[i] == r.buckets[i];
      }
  }

  lemma {:induction false} PickedConcat(a: seq<AggregateEvent>, b: seq<AggregateEvent>, p: Pick)
    ensures Picked(a + b, p) == Picked(a, p) + Picked(b, p)
    decreases |b|
  {
    if b == [] {
      assert a + b == a;
    } else {
      var n := |b| - 1;
      assert (a + b)[..|a + b| - 1] == a + b[..n] && (a + b)[|a + b| - 1] == b[n];
      PickedConcat(a, b[..n], p);
    }
  }

  lemma {:induction false} PickedEvery(es: seq<AggregateEvent>, p: Pick)
    requires Every(es, p)
    ensures Picked(es, p) == es
  {
    if es != [] {
      PickedEvery(es[..|es| - 1], p);
    }
  }

  lemma {:induction false} PickedNo(es: seq<AggregateEvent>, p: Pick)
    requires No(es, p)
    ensures Picked(es, p) == []
  {
    if es != [] {
      PickedNo(es[..|es| - 1], p);
    }
  }

  lemma {:induction false} PickedAre(es: seq<AggregateEvent>, p: Pick)
    ensures Every(Picked(es, p), p)
  {
    if es != [] {
      PickedAre(es[..|es| - 1], p);
    }
  }

  predicate NoGroup(gs: seq<seq<AggregateEvent>>, p: Pick) {
    forall k :: 0 <= k < |gs| ==> No(gs[k], p)
  }

  lemma {:induction false} PickedOthers(gs: seq<seq<AggregateEvent>>, p: Pick)
    requires NoGroup(gs, p)
    ensures Picked(Flatten(gs), p) == []
    decreases |gs|
  {
    if gs != [] {
      var n := |gs| - 1;
      PickedOthers(gs[..n], p);
      PickedConcat(Flatten(gs[..n]), gs[n], p);
      PickedNo(gs[n], p);
    }
  }

  lemma {:induction false} FlattenSplit(gs: seq<seq<AggregateEvent>>, i: nat)
    requires i < |gs|
    ensures Flatten(gs) == Flatten(gs[..i]) + gs[i] + Flatten(gs[i + 1..])
    decreases |gs|
  {
    var n := |gs| - 1;
    if i == n {
      assert gs[i + 1..] == [];
    } else {
      FlattenSplit(gs[..n], i);
      assert gs[..n][..i] == gs[..i] && gs[..n][i + 1..] == gs[i + 1..][..n - i - 1];
      assert gs[i + 1..][n - i - 1] == gs[n];
    }
  }

  /** When only group `i` has such calls, and only such calls, it is all there are. */
  lemma {:induction false} PickedGroup(gs: seq<seq<AggregateEvent>>, i: nat, p: Pick)
    requires i < |gs| && Every(gs[i], p) && NoGroup(gs[..i], p) && NoGroup(gs[i + 1..], p)
    ensures Picked(Flatten(gs), p) == gs[i]
  {
    FlattenSplit(gs, i);
    PickedOthers(gs[..i], p);
    PickedOthers(gs[i + 1..], p);
    PickedBetween(Flatten(gs[..i]), gs[i], Flatten(gs[i + 1..]), p);
  }

  lemma {:induction false} PickedBetween(a: seq<AggregateEvent>, es: seq<AggregateEvent>, b: seq<AggregateEvent>, p: Pick)
    requires Picked(a, p) == [] && Every(es, p) && Picked(b, p) == []
    ensures Picked(a + es + b, p) == es
  {
    PickedConcat(a + es, b, p);
    PickedConcat(a, es, p);
    PickedEvery(es, p);
  }

  /** Windows that do not overlap share no call. */
  lemma {:induction false} WindowsApart(es: seq<AggregateEvent>, ms: nat, due: nat, other: nat)
    requires Every(es, Window(ms, due)) && (due + ms <= other || other + ms <= due)
    ensures No(es, Window(ms, other))
  {
    forall i | 0 <= i < |es|
      ensures !Window(ms, other)(es[i])
    {
      assert Window(ms, due)(es[i]);
    }
  }

  /** The bucket computed at deadline `d` is the calls of [d - ms, d), the pending one those of the current window. */
  predicate Windowed(ms: nat, r: AggregateRun, calls: seq<AggregateEvent>) {
    |r.dues| == |r.buckets| &&
    (forall i :: 0 <= i < |r.buckets| ==> r.buckets[i] == Picked(calls, Window(ms, r.dues[i]))) &&
    r.pending == Picked(calls, Window(ms, r.clock.deadline))
  }

  /**
   Buckets are windows exactly when no call finds the slot due: neither one that a late timer has not
   ticked yet, nor one whose turn in a tick is still to come.
   */
  lemma {:induction false} AggregateWindows(ms: nat, events: seq<AggregateEvent>)
    requires ms > 0 && AggregateOrdered(events)
    ensures Windowed(ms, RunAggregate(ms, events), Adds(events)) <==> CallsTimely(ms, events)
  {
    var r, calls := RunAggregate(ms, events), Adds(events);
    RunSpaced(ms, events);
    AggregatePartition(ms, events);
    InPlaceExactly(ms, events);
    if InPlace(ms, r) {
      InPlaceWindowed(ms, r, calls);
    }
    if Windowed(ms, r, calls) {
      WindowedInPlace(ms, r, calls);
    }
  }

  /** A slot called at times 0 and `ms` with no tick between: the second call joins the first one's bucket. */
  lemma {:induction false} LateTickExample(ms: nat, x: real, metric: Metric, subject: Slice)
    requires ms > 0
    ensures var events := [AddSample(0, x, metric, subject), AddSample(ms, x, metric, subject)];
      AggregateOrdered(events) && !CallsTimely(ms, events) && !Windowed(ms, RunAggregate(ms, events), Adds(events))
  {
    var first, second := AddSample(0, x, metric, subject), AddSample(ms, x, metric, subject);
    var events := [first, second];
    assert events[..1] == [first] && [first][..0] == [];
    assert RunAggregate(ms, [first]).clock.deadline == ms by {
      assert RunAggregate(ms, []).clock == FRESH;
    }
    AggregateWindows(ms, events);
  }

  lemma {:induction false} WindowedInPlace(ms: nat, r: AggregateRun, calls: seq<AggregateEvent>)
    requires Windowed(ms, r, calls)
    ensures InPlace(ms, r)
  {
    forall i | 0 <= i < |r.buckets|
      ensures Every(r.buckets[i], Window(ms, r.dues[i]))
    {
      PickedAre(calls, Window(ms, r.dues[i]));
    }
    PickedAre(calls, Window(ms, r.clock.deadline));
  }

  /** Deadlines come one interval after the other, and `deadline` is still to come. */
  predicate InOrder(dues: seq<nat>, ms: nat, deadline: nat) {
    (forall i, j :: 0 <= i < j < |dues| ==> dues[i] + ms <= dues[j]) &&
    (forall i :: 0 <= i < |dues| ==> dues[i] + ms <= deadline)
  }

  lemma {:induction false} OthersApart(ms: nat, r: AggregateRun, i: nat)
    requires InPlace(ms, r) && InOrder(r.dues, ms, r.clock.deadline) && i < |r.buckets|
    ensures NoGroup(r.buckets[..i], Window(ms, r.dues[i])) && NoGroup(r.buckets[i + 1..], Window(ms, r.dues[i]))
    ensures No(r.pending, Window(ms, r.dues[i])) && No(r.buckets[i], Window(ms, r.clock.deadline))
  {
    forall k | 0 <= k < |r.buckets| && k != i
      ensures No(r.buckets[k], Window(ms, r.dues[i]))
    {
      WindowsApart(r.buckets[k], ms, r.dues[k], r.dues[i]);
    }
    WindowsApart(r.pending, ms, r.clock.deadline, r.dues[i]);
    WindowsApart(r.buckets[i], ms, r.dues[i], r.clock.deadline);
  }

  lemma {:induction false} InPlaceWindowed(ms: nat, r: AggregateRun, calls: seq<AggregateEvent>)
    requires ms > 0 && InPlace(ms, r) && calls == Flatten(r.buckets) + r.pending && InOrder(r.dues, ms, r.clock.deadline)
    ensures Windowed(ms, r, calls)
  {
    var now := Window(ms, r.clock.deadline);
    forall i | 0 <= i < |r.buckets|
      ensures r.buckets[i] == Picked(calls, Window(ms, r.dues[i])) && No(r.buckets[i], now)
    {
      OthersApart(ms, r, i);
      PickedGroup(r.buckets, i, Window(ms, r.dues[i]));
      PickedConcat(Flatten(r.buckets), r.pending, Window(ms, r.dues[i]));
      PickedNo(r.pending, Window(ms, r.dues[i]));
    }
    PickedOthers(r.buckets, now);
    PickedConcat(Flatten(r.buckets), r.pending, now);
    PickedEvery(r.pending, now);
  }

  // ----- sample! and aggregate!: deadlines on a grid -----

  /** `t` is some whole number of intervals, at least one, after `t0`. */
  ghost predicate OnGrid(t: nat, t0: nat, ms: nat) {
    exists k: nat :: k > 0 && t == t0 + k * ms
  }

  lemma {:induction false} GridNext(t: nat, t0: nat, ms: nat)
    requires OnGrid(t, t0, ms)
    ensures OnGrid(t + ms, t0, ms)
  {
    var k: nat :| k > 0 && t == t0 + k * ms;
    assert t + ms == t0 + (k + 1) * ms;
  }

  lemma {:induction false} GridFirst(t0: nat, ms: nat)
    ensures OnGrid(t0 + ms, t0, ms)
  {
    assert t0 + ms == t0 + 1 * ms;
  }

  /** The time of the first sample. */
  function FirstAdd(events: seq<AggregateEvent>): Option<nat> {
    if events == [] then None
    else
      var f, e := FirstAdd(events[..|events| - 1]), events[|events| - 1];
      if f == None && e.AddSample? then Some(e.t) else f
  }

  lemma {:induction false} AggregateGrid(ms: nat, events: seq<AggregateEvent>)
    requires ms > 0
    ensures var c := RunAggregate(ms, events).clock;
      (c.live <==> FirstAdd(events).Some?) && (c.live ==> OnGrid(c.deadline, FirstAdd(events).value, ms))
  {
    if events != [] {
      var n := |events| - 1;
      AggregateGrid(ms, events[..n]);
      var c, e := RunAggregate(ms, events[..n]).clock, events[n];
      if c.live {
        GridNext(c.deadline, FirstAdd(events).value, ms);
      } else if e.AddSample? {
        GridFirst(e.t, ms);
      }
    }
  }

  datatype RetainEvent = RetainCall(t: nat, subject: Slice, payload: Slice) | RetainTick(t: nat)

  /** An emission, with the number of calls made before it. */
  datatype Emission = Emission(t: nat, calls: nat, subject: Slice, payload: Slice)

  datatype RetainRun = RetainRun(clock: Clock, calls: seq<RetainEvent>, outs: seq<Emission>)

  predicate Retaining(kind: ClockKind) {
    kind == Debounce || kind == Sampler || kind == OnSilence
  }

  predicate RetainState(kind: ClockKind, ms: nat, r: RetainRun) {
    (r.clock.live <==> r.calls != []) &&
    (if r.clock.live then r.clock.interval == ms && r.clock.kind == kind else r.clock == FRESH && r.outs == []) &&
    forall i :: 0 <= i < |r.calls| ==> r.calls[i].RetainCall?
  }

  function RetainStep(kind: ClockKind, ms: nat, r: RetainRun, e: RetainEvent): (r': RetainRun)
    requires ms > 0 && Retaining(kind) && RetainState(kind, ms, r)
    ensures RetainState(kind, ms, r')
  {
    match e
    case RetainCall(t, subject, payload) =>
      var c := if kind == OnSilence then Rearm(r.clock, ms, payload, t) else Retain(r.clock, kind, ms, subject, payload, t);
      RetainRun(c, r.calls + [e], r.outs)
    case RetainTick(t) =>
      var (c, out) := TickClock(r.clock, t);
      match out
      case Published(subject, payload) => RetainRun(c, r.calls, r.outs + [Emission(t, |r.calls|, subject, payload)])
      case Silence(payload) => RetainRun(c, r.calls, r.outs + [Emission(t, |r.calls|, [], payload)])
      case _ => r.(clock := c)
  }

  /** One slot of debounce!, sample! or on-silence with a constant interval. */
  function RunRetain(kind: ClockKind, ms: nat, events: seq<RetainEvent>): (r: RetainRun)
    requires ms > 0 && Retaining(kind)
    ensures RetainState(kind, ms, r)
  {
    if events == [] then RetainRun(FRESH, [], [])
    else RetainStep(kind, ms, RunRetain(kind, ms, events[..|events| - 1]), events[|events| - 1])
  }

  /** sample! deadlines stay on the grid of the first call. */
  lemma {:induction false} SampleGrid(ms: nat, events: seq<RetainEvent>)
    requires ms > 0
    ensures var r := RunRetain(Sampler, ms, events);
      r.clock.live ==> r.clock.armed && OnGrid(r.clock.deadline, r.calls[0].t, ms)
  {
    if events != [] {
      var n := |events| - 1;
      SampleGrid(ms, events[..n]);
      var r, e := RunRetain(Sampler, ms, events[..n]), events[n];
      if r.clock.live {
        GridNext(r.clock.deadline, r.calls[0].t, ms);
      } else if e.RetainCall? {
        GridFirst(e.t, ms);
      }
    }
  }

  /** The slot holds the latest call's subject and payload, and is armed for `ms` after it unless already fired. */
  predicate HoldsLatest(kind: ClockKind, ms: nat, r: RetainRun)
    requires RetainState(kind, ms, r)
  {
    r.calls == [] ||
    var last := r.calls[|r.calls| - 1];
    r.clock.payload == last.payload && (kind != OnSilence ==> r.clock.subject == last.subject) &&
    (kind == Sampler || (r.clock.deadline == last.t + ms && (r.clock.armed <==> Unfired(r))))
  }

  /** No emission since the latest call. */
  predicate Unfired(r: RetainRun) {
    r.outs == [] || r.outs[|r.outs| - 1].calls < |r.calls|
  }

  /** `o` carries the latest call before it and, except for sample!, comes `ms` after it. */
  predicate CarriesLatest(kind: ClockKind, ms: nat, calls: seq<RetainEvent>, o: Emission)
    requires forall i :: 0 <= i < |calls| ==> calls[i].RetainCall?
  {
    0 < o.calls <= |calls| &&
    var call := calls[o.calls - 1];
    o.payload == call.payload && (kind != OnSilence ==> o.subject == call.subject) &&
    (kind != Sampler ==> o.t >= call.t + ms)
  }

  predicate EmitsLatest(kind: ClockKind, ms: nat, r: RetainRun)
    requires RetainState(kind, ms, r)
  {
    (forall i :: 0 <= i < |r.outs| ==> CarriesLatest(kind, ms, r.calls, r.outs[i])) &&
    (forall i, j :: 0 <= i < j < |r.outs| ==>
      if kind == Sampler then r.outs[i].calls <= r.outs[j].calls else r.outs[i].calls < r.outs[j].calls)
  }

  lemma {:induction false} RetainCallKeeps(kind: ClockKind, ms: nat, r: RetainRun, e: RetainEvent)
    requires ms > 0 && Retaining(kind) && RetainState(kind, ms, r) && e.RetainCall?
    requires HoldsLatest(kind, ms, r) && EmitsLatest(kind, ms, r)
    ensures var r' := RetainStep(kind, ms, r, e); HoldsLatest(kind, ms, r') && EmitsLatest(kind, ms, r')
  {
    var r' := RetainStep(kind, ms, r, e);
    forall i | 0 <= i < |r'.outs|
      ensures CarriesLatest(kind, ms, r'.calls, r'.outs[i])
    {
      assert CarriesLatest(kind, ms, r.calls, r.outs[i]);
    }
    assert r.outs != [] ==> CarriesLatest(kind, ms, r.calls, r.outs[|r.outs| - 1]);
  }

  lemma {:induction false} RetainTickKeeps(kind: ClockKind, ms: nat, r: RetainRun, e: RetainEvent)
    requires ms > 0 && Retaining(kind) && RetainState(kind, ms, r) && e.RetainTick?
    requires HoldsLatest(kind, ms, r) && EmitsLatest(kind, ms, r)
    ensures var r' := RetainStep(kind, ms, r, e); HoldsLatest(kind, ms, r') && EmitsLatest(kind, ms, r')
  {
    assert r.outs != [] ==> CarriesLatest(kind, ms, r.calls, r.outs[|r.outs| - 1]);
    if Due(r.clock, e.t) {
      EmissionKeeps(kind, ms, r, e.t);
    }
  }

  /** A tick of a due slot emits what the slot holds. */
  lemma {:induction false} DueEmits(kind: ClockKind, ms: nat, r: RetainRun, t: nat) returns (o: Emission)
    requires ms > 0 && Retaining(kind) && RetainState(kind, ms, r) && Due(r.clock, t)
    ensures o.t == t && o.calls == |r.calls| && o.payload == r.clock.payload && (kind != OnSilence ==> o.subject == r.clock.subject)
    ensures RetainStep(kind, ms, r, RetainTick(t)) ==
      RetainRun(if kind == Sampler then r.clock.(deadline := r.clock.deadline + ms) else r.clock.(armed := false), r.calls, r.outs + [o])
  {
    o := Emission(t, |r.calls|, if kind == OnSilence then [] else r.clock.subject, r.clock.payload);
  }

  lemma {:induction false} EmissionKeeps(kind: ClockKind, ms: nat, r: RetainRun, t: nat)
    requires ms > 0 && Retaining(kind) && RetainState(kind, ms, r) && Due(r.clock, t)
    requires HoldsLatest(kind, ms, r) && EmitsLatest(kind, ms, r)
    requires r.outs != [] ==> CarriesLatest(kind, ms, r.calls, r.outs[|r.outs| - 1])
    ensures var r' := RetainStep(kind, ms, r, RetainTick(t)); HoldsLatest(kind, ms, r') && EmitsLatest(kind, ms, r')
  {
    var o := DueEmits(kind, ms, r, t);
    var r' := RetainStep(kind, ms, r, RetainTick(t));
    assert CarriesLatest(kind, ms, r.calls, o);
    EmitsSnoc(kind, ms, r, r', o);
  }

  lemma {:induction false} EmitsSnoc(kind: ClockKind, ms: nat, r: RetainRun, r': RetainRun, o: Emission)
    requires RetainState(kind, ms, r) && RetainState(kind, ms, r') && EmitsLatest(kind, ms, r)
    requires r'.calls == r.calls && r'.outs == r.outs + [o] && CarriesLatest(kind, ms, r.calls, o)
    requires o.calls == |r.calls| && (kind == Sampler || Unfired(r))
    requires r.outs != [] ==> CarriesLatest(kind, ms, r.calls, r.outs[|r.outs| - 1])
    ensures EmitsLatest(kind, ms, r')
  {
    var n := |r.outs|;
    forall i, j | 0 <= i < j < n + 1
      ensures if kind == Sampler then r'.outs[i].calls <= r'.outs[j].calls else r'.outs[i].calls < r'.outs[j].calls
    {
      if j == n {
        assert i < n - 1 ==> r.outs[i].calls <= r.outs[n - 1].calls;
      }
    }
  }

  /**
   Each emission carries the latest retained payload; debounce! and on-silence emit at most once
   per arming, and only once the interval has passed without another call.
   */
  lemma {:induction false} RetainEmitsLatest(kind: ClockKind, ms: nat, events: seq<RetainEvent>)
    requires ms > 0 && Retaining(kind)
    ensures var r := RunRetain(kind, ms, events); HoldsLatest(kind, ms, r) && EmitsLatest(kind, ms, r)
  {
    if events != [] {
      var n := |events| - 1;
      RetainEmitsLatest(kind, ms, events[..n]);
      if events[n].RetainCall? {
        RetainCallKeeps(kind, ms, RunRetain(kind, ms, events[..n]), events[n]);
      } else {
        RetainTickKeeps(kind, ms, RunRetain(kind, ms, events[..n]), events[n]);
      }
    }
  }

  // ----- dropout: lost and found alternate -----

  datatype DropoutEvent = HeardAt(t: nat) | DropoutTick(t: nat)

  datatype DropoutRun = DropoutRun(clock: Clock, outs: seq<Output>)

  function RunDropout(ms: nat, events: seq<DropoutEvent>): (r: DropoutRun)
    requires ms > 0
    ensures r.clock.live ==> r.clock.interval == ms && r.clock.kind == Dropout
    ensures !r.clock.live ==> r.clock == FRESH
  {
    if events == [] then DropoutRun(FRESH, [])
    else
      var r, e := RunDropout(ms, events[..|events| - 1]), events[|events| - 1];
      var (c, out) := match e case HeardAt(t) => Heard(r.clock, ms, t) case DropoutTick(t) => TickClock(r.clock, t);
      DropoutRun(c, if out == Nothing then r.outs else r.outs + [out])
  }

  /** Over every run, the firings are lost, found, lost, found, ... */
  lemma {:induction false} DropoutAlternates(ms: nat, events: seq<DropoutEvent>)
    requires ms > 0
    ensures var r := RunDropout(ms, events);
      (forall i :: 0 <= i < |r.outs| ==> r.outs[i] == if i % 2 == 0 then LostForm else FoundForm) &&
      (r.clock.lost <==> |r.outs| % 2 == 1) && (r.clock.lost ==> !r.clock.armed)
  {
    if events != [] {
      DropoutAlternates(ms, events[..|events| - 1]);
    }
  }

  /** When the stream was last heard. */
  function LastHeard(events: seq<DropoutEvent>): Option<nat> {
    if events == [] then None
    else
      var e := events[|events| - 1];
      if e.HeardAt? then Some(e.t) else LastHeard(events[..|events| - 1])
  }

  lemma {:induction false} DropoutArmed(ms: nat, events: seq<DropoutEvent>)
    requires ms > 0
    ensures var r, heard := RunDropout(ms, events), LastHeard(events);
      (r.clock.live <==> heard.Some?) && (r.clock.live ==> (r.clock.armed <==> !r.clock.lost) && r.clock.deadline == heard.value + ms)
  {
    if events != [] {
      DropoutArmed(ms, events[..|events| - 1]);
    }
  }

  /**
   In every run: a tick fires lost exactly when the stream is there, was heard, and that is `ms` or
   longer ago; a message fires found exactly when the stream was lost.
   */
  lemma {:induction false} DropoutFires(ms: nat, events: seq<DropoutEvent>, t: nat)
    requires ms > 0
    ensures var outs, heard := RunDropout(ms, events).outs, LastHeard(events);
      RunDropout(ms, events + [DropoutTick(t)]).outs ==
        outs + (if |outs| % 2 == 0 && heard.Some? && heard.value + ms <= t then [LostForm] else []) &&
      RunDropout(ms, events + [HeardAt(t)]).outs == outs + if |outs| % 2 == 1 then [FoundForm] else []
  {
    DropoutAlternates(ms, events);
    DropoutArmed(ms, events);
    assert (events + [DropoutTick(t)])[..|events|] == events && (events + [HeardAt(t)])[..|events|] == events;
  }

  /** In every run: a tick of debounce! or on-silence emits exactly when the latest call is `ms` or longer ago and unanswered. */
  lemma {:induction false} RetainFires(kind: ClockKind, ms: nat, events: seq<RetainEvent>, t: nat)
    requires ms > 0 && (kind == Debounce || kind == OnSilence)
    ensures var r, r' := RunRetain(kind, ms, events), RunRetain(kind, ms, events + [RetainTick(t)]);
      |r'.outs| == |r.outs| + if r.calls != [] && Unfired(r) && r.calls[|r.calls| - 1].t + ms <= t then 1 else 0
  {
    RetainEmitsLatest(kind, ms, events);
    assert (events + [RetainTick(t)])[..|events|] == events;
  }
}
