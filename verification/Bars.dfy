/**
 Open/high/low/close bars (`src/patchbay/pb_form_bar.c`), over a fixed number of samples or over
 aligned time windows, the latter also closed by ticks (`src/patchbay/pb_forms.c`).
 */
module Bars {
  import opened Bytes
  import opened Windows

  const U64: nat := 0x1_0000_0000_0000_0000

  datatype Ohlc = Ohlc(open: real, high: real, low: real, close: real)

  /** The open bar: `count` samples so far, the last of them `last`; `start` is its aligned window. */
  datatype Bar = Bar(open: real, high: real, low: real, last: real, count: nat, start: nat)

  const NO_BAR: Bar := Bar(0.0, 0.0, 0.0, 0.0, 0, 0)

  function Close(b: Bar): Ohlc {
    Ohlc(b.open, b.high, b.low, b.last)
  }

  function Opened(x: real, start: nat): Bar {
    Bar(x, x, x, x, 1, start)
  }

  function Extended(b: Bar, x: real): Bar {
    b.(high := if x > b.high then x else b.high, low := if x < b.low then x else b.low, last := x, count := b.count + 1)
  }

  function Aligned(t: nat, window: nat): nat
    requires window > 0
  {
    t / window * window
  }

  function TimeUpdate(b: Bar, window: nat, now: nat, x: real): (Bar, Option<Ohlc>)
    requires window > 0
  {
    if b.count == 0 then (Opened(x, Aligned(now, window)), None)
    else if b.start != Aligned(now, window) then (Opened(x, Aligned(now, window)), Some(Close(b)))
    else (Extended(b, x), None)
  }

  /** The subtraction is unsigned. */
  function TimeTick(b: Bar, window: nat, now: nat): (Bar, Option<Ohlc>) {
    if b.count == 0 || (now - b.start) % U64 < window then (b, None)
    else (b.(count := 0, start := 0), Some(Close(b)))
  }

  /** Counting bars leave `last` and `start` alone: the close of an emitted bar is the sample that fills it. */
  function CountUpdate(b: Bar, cap: nat, x: real): (Bar, Option<Ohlc>) {
    var b' := if b.count == 0 then b.(open := x, high := x, low := x, count := 1) else Extended(b, x).(last := b.last);
    if b'.count < cap then (b', None) else (b'.(count := 0), Some(Ohlc(b'.open, b'.high, b'.low, x)))
  }

  /** The bar fields of a state slot. */
  class BarSlot {
    var open: real
    var high: real
    var low: real
    var lastClose: real
    var count: nat
    var windowStart: nat
    const cap: nat
    const window: nat

    constructor (cap: nat, window: nat)
      ensures State() == NO_BAR && this.cap == cap && this.window == window
    {
      this.cap, this.window := cap, window;
      open, high, low, lastClose, count, windowStart := 0.0, 0.0, 0.0, 0.0, 0, 0;
    }

    function State(): Bar
      reads this
    {
      Bar(open, high, low, lastClose, count, windowStart)
    }

    /** `bar_time_update`. */
    method TimeSample(now: nat, x: real) returns (out: Option<Ohlc>)
      requires window > 0
      modifies this
      ensures (State(), out) == TimeUpdate(old(State()), window, now, x)
    {
      var aligned := now / window * window;
      if count == 0 {
        open, high, low, count, windowStart, lastClose := x, x, x, 1, aligned, x;
        return None;
      }
      if windowStart != aligned {
        out := Some(Ohlc(open, high, low, lastClose));
        open, high, low, count, windowStart, lastClose := x, x, x, 1, aligned, x;
        return;
      }
      if x > high { high := x; }
      if x < low { low := x; }
      count := count + 1;
      lastClose := x;
      out := None;
    }

    /** `bar_time_tick`. */
    method Tick(now: nat) returns (out: Option<Ohlc>)
      modifies this
      ensures (State(), out) == TimeTick(old(State()), window, now)
    {
      if count == 0 {
        return None;
      }
      if (now - windowStart) % U64 < window {
        return None;
      }
      out := Some(Ohlc(open, high, low, lastClose));
      count := 0;
      windowStart := 0;
    }

    /** `bar_tick_update`. */
    method CountSample(x: real) returns (out: Option<Ohlc>)
      modifies this
      ensures (State(), out) == CountUpdate(old(State()), cap, x)
    {
      if count == 0 {
        open, high, low, count := x, x, x, 1;
      } else {
        if x > high { high := x; }
        if x < low { low := x; }
        count := count + 1;
      }
      if count < cap {
        return None;
      }
      out := Some(Ohlc(open, high, low, x));
      count := 0;
    }
  }

  // ----- the reference: samples grouped by window, one bar per group -----

  function OhlcOf(g: seq<Sample>): Ohlc
    requires g != []
  {
    Ohlc(g[0].x, MaxOf(Xs(g)), MinOf(Xs(g)), g[|g| - 1].x)
  }

  predicate NonEmpty(gs: seq<seq<Sample>>) {
    forall i :: 0 <= i < |gs| ==> gs[i] != []
  }

  function BarsOf(gs: seq<seq<Sample>>): (r: seq<Ohlc>)
    requires NonEmpty(gs)
    ensures |r| == |gs|
  {
    seq(|gs|, i requires 0 <= i < |gs| => OhlcOf(gs[i]))
  }

  /** Put `s` into the last group when `joins`, else into a group of its own. */
  function AddTo(gs: seq<seq<Sample>>, s: Sample, joins: bool): (r: seq<seq<Sample>>)
    requires NonEmpty(gs)
    ensures NonEmpty(r)
  {
    if gs != [] && joins then gs[..|gs| - 1] + [gs[|gs| - 1] + [s]] else gs + [[s]]
  }

  /** Consecutive samples whose times have the same key. */
  function ByKey(w: seq<Sample>, key: nat -> nat): (gs: seq<seq<Sample>>)
    ensures NonEmpty(gs)
    ensures w != [] ==> gs != [] && gs[|gs| - 1][|gs[|gs| - 1]| - 1] == w[|w| - 1]
    ensures w == [] ==> gs == []
  {
    if w == [] then []
    else
      var n := |w| - 1;
      AddTo(ByKey(w[..n], key), w[n], n > 0 && key(w[n - 1].t) == key(w[n].t))
  }

  /** The number of the window a time falls into. */
  function WindowNumber(window: nat): nat -> nat
    requires window > 0
  {
    t => t / window
  }

  function ByWindow(w: seq<Sample>, window: nat): (gs: seq<seq<Sample>>)
    requires window > 0
    ensures NonEmpty(gs)
  {
    ByKey(w, WindowNumber(window))
  }

  predicate HasKey(g: seq<Sample>, key: nat -> nat, k: nat) {
    forall i :: 0 <= i < |g| ==> key(g[i].t) == k
  }

  /** The groups together are the samples, a group has one key, and later groups have later keys. */
  ghost predicate Groups(gs: seq<seq<Sample>>, w: seq<Sample>, key: nat -> nat)
    requires NonEmpty(gs)
  {
    Flatten(gs) == w &&
    (forall i :: 0 <= i < |gs| ==> HasKey(gs[i], key, key(gs[i][0].t))) &&
    (forall i, j :: 0 <= i < j < |gs| ==> key(gs[i][0].t) < key(gs[j][0].t))
  }

  lemma {:induction false} GroupsAdd(gs: seq<seq<Sample>>, w: seq<Sample>, key: nat -> nat, s: Sample)
    requires NonEmpty(gs) && Groups(gs, w, key) && (w == [] <==> gs == [])
    requires w != [] ==> gs[|gs| - 1][|gs[|gs| - 1]| - 1] == w[|w| - 1] && key(w[|w| - 1].t) <= key(s.t)
    ensures Groups(AddTo(gs, s, w != [] && key(w[|w| - 1].t) == key(s.t)), w + [s], key)
  {
    var r := AddTo(gs, s, w != [] && key(w[|w| - 1].t) == key(s.t));
    if w != [] {
      var last := gs[|gs| - 1];
      assert HasKey(last, key, key(last[0].t));
      if key(w[|w| - 1].t) == key(s.t) {
        assert r[..|r| - 1] == gs[..|gs| - 1];
        assert Flatten(gs[..|gs| - 1]) + (last + [s]) == Flatten(gs) + [s];
      } else {
        assert r[..|r| - 1] == gs;
      }
    } else {
      assert Flatten([]) + [s] == w + [s] && r[..0] == [];
    }
  }

  lemma {:induction false} ByKeyLast(w: seq<Sample>, key: nat -> nat)
    requires w != []
    ensures var n := |w| - 1; var v := w[..n];
      w == v + [w[n]] && ByKey(w, key) == AddTo(ByKey(v, key), w[n], v != [] && key(v[|v| - 1].t) == key(w[n].t))
  {
  }

  lemma {:induction false} ByKeyGroups(w: seq<Sample>, key: nat -> nat)
    requires forall i, j :: 0 <= i < j < |w| ==> key(w[i].t) <= key(w[j].t)
    ensures Groups(ByKey(w, key), w, key)
  {
    if w != [] {
      var n := |w| - 1;
      var v, gs := w[..n], ByKey(w[..n], key);
      assert forall i, j :: 0 <= i < j < |v| ==> key(v[i].t) <= key(v[j].t);
      ByKeyGroups(v, key);
      assert v != [] ==> key(v[|v| - 1].t) <= key(w[n].t);
      GroupsAdd(gs, v, key, w[n]);
      ByKeyLast(w, key);
    }
  }

  /** `ByWindow` is the grouping by `floor(t / window)`. */
  lemma {:induction false} ByWindowGroups(w: seq<Sample>, window: nat)
    requires window > 0 && Sorted(w)
    ensures Groups(ByWindow(w, window), w, WindowNumber(window))
  {
    forall i, j | 0 <= i < j < |w|
      ensures WindowNumber(window)(w[i].t) <= WindowNumber(window)(w[j].t)
    {
      DivMonotone(w[i].t, w[j].t, window);
    }
    ByKeyGroups(w, WindowNumber(window));
  }

  lemma {:induction false} DivMonotone(a: nat, b: nat, k: nat)
    requires a <= b && k > 0
    ensures a / k <= b / k
  {
    AlignedIs(a, k);
    AlignedIs(b, k);
    if a / k > b / k {
      ProductGrows(k, b / k, a / k);
    }
  }

  /** Two times are in the same aligned window exactly when their quotients agree. */
  lemma {:induction false} AlignedSame(a: nat, b: nat, k: nat)
    requires k > 0
    ensures Aligned(a, k) == Aligned(b, k) <==> a / k == b / k
    ensures Aligned(a, k) <= a < Aligned(a, k) + k
  {
    var qa, qb := a / k, b / k;
    AlignedIs(a, k);
    AlignedIs(b, k);
    if qa > qb {
      ProductGrows(k, qb, qa);
    } else if qa < qb {
      ProductGrows(k, qa, qb);
    }
  }

  lemma {:induction false} AlignedIs(a: nat, k: nat)
    requires k > 0
    ensures Aligned(a, k) == k * (a / k) && k * (a / k) <= a < k * (a / k) + k
  {
    assert a == k * (a / k) + a % k;
  }

  lemma {:induction false} ProductGrows(k: nat, a: nat, b: nat)
    requires a < b
    ensures k * a + k <= k * b
    decreases b
  {
    if a + 1 < b {
      ProductGrows(k, a, b - 1);
      assert k * b == k * (b - 1) + k;
    } else {
      assert k * b == k * a + k;
    }
  }

  // ----- every run of samples and ticks -----

  datatype RunState = RunState(bar: Bar, emitted: seq<Ohlc>)

  function Emit(es: seq<Ohlc>, out: Option<Ohlc>): seq<Ohlc> {
    if out.Some? then es + [out.value] else es
  }

  function RunTimeBars(window: nat, events: seq<Event>): RunState
    requires window > 0
  {
    if events == [] then RunState(NO_BAR, [])
    else
      var st, e := RunTimeBars(window, events[..|events| - 1]), events[|events| - 1];
      var (bar, out) := match e
        case Push(t, x) => TimeUpdate(st.bar, window, t, x)
        case Tick(t) => TimeTick(st.bar, window, t);
      RunState(bar, Emit(st.emitted, out))
  }

  /** The emitted bars followed by the open one. */
  function AllBars(st: RunState): seq<Ohlc> {
    if st.bar.count > 0 then st.emitted + [Close(st.bar)] else st.emitted
  }

  lemma {:induction false} BarsOfAdd(gs: seq<seq<Sample>>, s: Sample, joins: bool)
    requires NonEmpty(gs)
    ensures BarsOf(AddTo(gs, s, joins)) ==
      if gs != [] && joins then BarsOf(gs)[..|gs| - 1] + [OhlcOf(gs[|gs| - 1] + [s])] else BarsOf(gs) + [OhlcOf([s])]
  {
  }

  lemma {:induction false} OhlcOfSnoc(g: seq<Sample>, s: Sample)
    requires g != []
    ensures OhlcOf(g + [s]) == var o := OhlcOf(g); Ohlc(o.open, if s.x > o.high then s.x else o.high, if s.x < o.low then s.x else o.low, s.x)
  {
    assert Xs(g + [s])[..|g|] == Xs(g);
  }

  /** The open bar, if any, is the last group's, and its window is that group's. */
  ghost predicate Follows(st: RunState, w: seq<Sample>, window: nat)
    requires window > 0
  {
    AllBars(st) == BarsOf(ByWindow(w, window)) &&
    (st.bar.count > 0 ==> w != [] && st.bar.start == Aligned(w[|w| - 1].t, window))
  }

  lemma {:induction false} FollowsPush(st: RunState, w: seq<Sample>, window: nat, t: nat, x: real)
    requires window > 0 && Follows(st, w, window)
    requires st.bar.count == 0 && w != [] ==> w[|w| - 1].t / window != t / window
    ensures var (bar, out) := TimeUpdate(st.bar, window, t, x);
      Follows(RunState(bar, Emit(st.emitted, out)), w + [Sample(t, x)], window)
  {
    var s, gs := Sample(t, x), ByWindow(w, window);
    var joins := w != [] && w[|w| - 1].t / window == t / window;
    ByWindowSnoc(w, s, window);
    BarsOfAdd(gs, s, joins);
    assert Xs([s]) == [x];
    if w != [] {
      AlignedSame(w[|w| - 1].t, t, window);
      if joins {
        OhlcOfSnoc(gs[|gs| - 1], s);
        assert BarsOf(gs)[|gs| - 1] == Close(st.bar);
      }
    }
  }

  lemma {:induction false} ByWindowSnoc(w: seq<Sample>, s: Sample, window: nat)
    requires window > 0
    ensures ByWindow(w + [s], window) == AddTo(ByWindow(w, window), s, w != [] && w[|w| - 1].t / window == s.t / window)
  {
    var w' := w + [s];
    assert w'[..|w|] == w;
    ByKeyLast(w', WindowNumber(window));
  }

  /** `Follows`, and at time `now` every sample outside the open bar lies in a window that has ended. */
  ghost predicate FollowsAt(st: RunState, w: seq<Sample>, window: nat, now: nat)
    requires window > 0
  {
    Follows(st, w, window) &&
    (w != [] ==> w[|w| - 1].t <= now && (st.bar.count == 0 ==> Aligned(w[|w| - 1].t, window) + window <= now))
  }

  lemma {:induction false} FollowsAtPush(st: RunState, w: seq<Sample>, window: nat, now: nat, t: nat, x: real)
    requires window > 0 && FollowsAt(st, w, window, now) && now <= t
    ensures var (bar, out) := TimeUpdate(st.bar, window, t, x);
      FollowsAt(RunState(bar, Emit(st.emitted, out)), w + [Sample(t, x)], window, t)
  {
    if w != [] {
      AlignedSame(w[|w| - 1].t, t, window);
      AlignedSame(t, t, window);
    }
    FollowsPush(st, w, window, t, x);
  }

  lemma {:induction false} FollowsAtTick(st: RunState, w: seq<Sample>, window: nat, now: nat, t: nat)
    requires window > 0 && FollowsAt(st, w, window, now) && now <= t < U64
    ensures var (bar, out) := TimeTick(st.bar, window, t);
      FollowsAt(RunState(bar, Emit(st.emitted, out)), w, window, t)
  {
    if w != [] {
      AlignedSame(w[|w| - 1].t, t, window);
    }
  }

  lemma {:induction false} RunFollows(window: nat, events: seq<Event>)
    requires window > 0 && Ordered(events) && forall e :: e in events ==> e.t < U64
    ensures FollowsAt(RunTimeBars(window, events), Pushed(events), window, if events == [] then 0 else events[|events| - 1].t)
  {
    if events != [] {
      var n := |events| - 1;
      var before, e := events[..n], events[n];
      RunFollows(window, before);
      var st, w, now := RunTimeBars(window, before), Pushed(before), if before == [] then 0 else before[n - 1].t;
      if e.Push? {
        FollowsAtPush(st, w, window, now, e.t, e.x);
      } else {
        FollowsAtTick(st, w, window, now, e.t);
      }
    }
  }

  /**
   Time bars do not depend on timer scheduling: over every ordered interleaving of samples and
   ticks, emitted bars followed by the open bar are one bar per window of the sample stream.
   */
  lemma {:induction false} BarsIgnoreTicks(window: nat, events: seq<Event>)
    requires window > 0 && Ordered(events) && forall e :: e in events ==> e.t < U64
    ensures AllBars(RunTimeBars(window, events)) == BarsOf(ByWindow(Pushed(events), window))
    ensures AllBars(RunTimeBars(window, events)) == AllBars(RunTimeBars(window, Pushes(events)))
  {
    RunFollows(window, events);
    PushesOrdered(events);
    PushedOfPushes(events);
    RunFollows(window, Pushes(events));
  }

  // ----- bars of a fixed number of samples -----

  function RunCountBars(cap: nat, w: seq<Sample>): RunState {
    if w == [] then RunState(NO_BAR, [])
    else
      var st := RunCountBars(cap, w[..|w| - 1]);
      var (bar, out) := CountUpdate(st.bar, cap, w[|w| - 1].x);
      RunState(bar, Emit(st.emitted, out))
  }

  predicate Full(gs: seq<seq<Sample>>, cap: nat) {
    gs == [] || |gs[|gs| - 1]| >= cap
  }

  /** Runs of `cap` consecutive samples. */
  function ByCount(w: seq<Sample>, cap: nat): (gs: seq<seq<Sample>>)
    ensures NonEmpty(gs)
  {
    if w == [] then []
    else
      var gs := ByCount(w[..|w| - 1], cap);
      AddTo(gs, w[|w| - 1], !Full(gs, cap))
  }

  /** `ByCount` cuts the samples into groups of exactly `cap`, the last one possibly shorter. */
  lemma {:induction false} ByCountGroups(w: seq<Sample>, cap: nat)
    requires cap > 0
    ensures var gs := ByCount(w, cap);
      Flatten(gs) == w && (forall i :: 0 <= i < |gs| ==> |gs[i]| <= cap) && (forall i :: 0 <= i < |gs| - 1 ==> |gs[i]| == cap)
  {
    if w != [] {
      var n := |w| - 1;
      ByCountGroups(w[..n], cap);
      ChunkAdd(ByCount(w[..n], cap), w[n], cap);
      assert w == w[..n] + [w[n]];
    }
  }

  predicate Chunks(gs: seq<seq<Sample>>, cap: nat) {
    (forall i :: 0 <= i < |gs| ==> |gs[i]| <= cap) && (forall i :: 0 <= i < |gs| - 1 ==> |gs[i]| == cap)
  }

  lemma {:induction false} ChunkAdd(gs: seq<seq<Sample>>, s: Sample, cap: nat)
    requires cap > 0 && NonEmpty(gs) && Chunks(gs, cap)
    ensures Chunks(AddTo(gs, s, !Full(gs, cap)), cap)
    ensures Flatten(AddTo(gs, s, !Full(gs, cap))) == Flatten(gs) + [s]
  {
    var r := AddTo(gs, s, !Full(gs, cap));
    if Full(gs, cap) {
      assert r[..|r| - 1] == gs;
    } else {
      assert r[..|r| - 1] == gs[..|gs| - 1];
      assert Flatten(gs[..|gs| - 1]) + (gs[|gs| - 1] + [s]) == Flatten(gs) + [s];
    }
  }

  /** The emitted bars, then the open one as it would close now. */
  ghost predicate CountFollows(st: RunState, gs: seq<seq<Sample>>, cap: nat)
    requires NonEmpty(gs)
  {
    if Full(gs, cap) then st.bar.count == 0 && st.emitted == BarsOf(gs)
    else
      var g := gs[|gs| - 1];
      st.bar.count == |g| && st.emitted + [Ohlc(st.bar.open, st.bar.high, st.bar.low, g[|g| - 1].x)] == BarsOf(gs)
  }

  lemma {:induction false} CountFollowsStep(st: RunState, gs: seq<seq<Sample>>, cap: nat, s: Sample)
    requires cap > 0 && NonEmpty(gs) && CountFollows(st, gs, cap)
    ensures var (bar, out) := CountUpdate(st.bar, cap, s.x);
      CountFollows(RunState(bar, Emit(st.emitted, out)), AddTo(gs, s, !Full(gs, cap)), cap)
  {
    BarsOfAdd(gs, s, !Full(gs, cap));
    assert Xs([s]) == [s.x];
    if !Full(gs, cap) {
      var g := gs[|gs| - 1];
      OhlcOfSnoc(g, s);
      assert BarsOf(gs)[|gs| - 1] == Ohlc(st.bar.open, st.bar.high, st.bar.low, g[|g| - 1].x);
    }
  }

  /** Over every run, emitted bars followed by the open one are one bar per `cap` samples. */
  lemma {:induction false} CountBarsAreChunks(cap: nat, w: seq<Sample>)
    requires cap > 0
    ensures CountFollows(RunCountBars(cap, w), ByCount(w, cap), cap)
  {
    if w != [] {
      CountBarsAreChunks(cap, w[..|w| - 1]);
      CountFollowsStep(RunCountBars(cap, w[..|w| - 1]), ByCount(w[..|w| - 1], cap), cap, w[|w| - 1]);
    }
  }
}
