/**
 The patchbay clock scheduler (`src/patchbay/pb_program.c`): slot deadlines, one tick over every
 slot of every rule, and the event-time catch-up loop `pb_program_tick_until`.

 What a fired slot runs (a clock body, or the rules re-entered by what it publishes) is an
 arbitrary finite list of form calls at the time of the tick, on any slots, new ones included.
 */
module Scheduler {
  import opened Bytes
  import opened Windows
  import opened Clocks
  import Bars
  import Throttle

  const U64_MAX: nat := 0xffff_ffff_ffff_ffff

  // ----- slots -----

  /** `OtherSlot` stands for the kinds without a deadline: numbers, bytes, count rings and count bars. */
  datatype Slot =
    | EmptySlot
    | OtherSlot
    | RingSlot(window: nat, samples: seq<Sample>)
    | BarSlot(width: nat, bar: Bars.Bar)
    | ClockSlot(clock: Clock)

  /** sample! and aggregate! slots are armed for good by their first call. */
  predicate WellFormed(s: Slot) {
    match s
    case RingSlot(window, samples) => window > 0
    case BarSlot(width, bar) => width > 0
    case ClockSlot(c) =>
      c.live && c.interval > 0 && c.kind != NoClock && (c.kind == Sampler || c.kind == Aggregate ==> c.armed)
    case _ => true
  }

  /** `entry_deadline`: the ring deadline saturates. */
  function Deadline(s: Slot): Option<nat> {
    match s
    case RingSlot(window, samples) =>
      if samples == [] then None
      else if samples[0].t + window > U64_MAX then Some(U64_MAX)
      else if samples[0].t + window < U64_MAX then Some(samples[0].t + window + 1)
      else Some(U64_MAX)
    case BarSlot(width, bar) => if bar.count > 0 then Some(bar.start + width) else None
    case ClockSlot(c) => if c.armed then Some(c.deadline) else None
    case _ => None
  }

  /** Not due before `d`. */
  predicate DueFrom(s: Slot, d: nat) {
    Deadline(s).Some? ==> Deadline(s).value >= d
  }

  predicate Above(s: Slot, d: nat) {
    Deadline(s).Some? ==> Deadline(s).value > d
  }

  // ----- form calls at a given time -----

  datatype Form =
    | WindowForm(window: nat, x: real)
    | ThrottleForm(window: nat, max: nat)
    | BarForm(width: nat, x: real)
    | RetainForm(kind: ClockKind, ms: nat, subject: Slice, payload: Slice)
    | AggregateForm(ms: nat, metric: Metric, subject: Slice, x: real)
    | SilenceForm(ms: nat, payload: Slice)
    | DropoutForm(ms: nat)
    | OtherForm

  /** The clock fields of a slot that may be empty; `None` when the slot is of another kind. */
  function ClockOf(s: Slot, kind: ClockKind): Option<Clock> {
    match s
    case EmptySlot => Some(FRESH)
    case ClockSlot(c) => if c.kind == kind then Some(c) else None
    case _ => None
  }

  /** One call of a form on its slot; a call with bad arguments or on a slot of another kind fails and changes nothing. */
  function Call(s: Slot, form: Form, now: nat): Slot {
    match form
    case WindowForm(window, x) =>
      if s.RingSlot? then s.(samples := PushTime(s.samples, s.window, now, x))
      else if s.EmptySlot? && window > 0 then RingSlot(window, [Sample(now, x)])
      else s
    case ThrottleForm(window, max) =>
      if s.RingSlot? then
        var e := Evict(s.samples, Cutoff(now, s.window));
        s.(samples := if |e| >= max then e else e + [Sample(now, 1.0)])
      else if s.EmptySlot? && window > 0 && max > 0 then RingSlot(window, [Sample(now, 1.0)])
      else s
    case BarForm(width, x) =>
      if s.BarSlot? && s.width > 0 then s.(bar := Bars.TimeUpdate(s.bar, s.width, now, x).0)
      else if s.EmptySlot? && width > 0 then BarSlot(width, Bars.TimeUpdate(Bars.NO_BAR, width, now, x).0)
      else s
    case RetainForm(kind, ms, subject, payload) =>
      if (kind == Debounce || kind == Sampler) && ms > 0 && ClockOf(s, kind).Some?
      then ClockSlot(Retain(ClockOf(s, kind).value, kind, ms, subject, payload, now)) else s
    case AggregateForm(ms, metric, subject, x) =>
      if ms > 0 && ClockOf(s, Aggregate).Some?
      then ClockSlot(Gather(ClockOf(s, Aggregate).value, ms, metric, subject, x, now)) else s
    case SilenceForm(ms, payload) =>
      if ms > 0 && ClockOf(s, OnSilence).Some?
      then ClockSlot(Rearm(ClockOf(s, OnSilence).value, ms, payload, now)) else s
    case DropoutForm(ms) =>
      if ms > 0 && ClockOf(s, Dropout).Some?
      then ClockSlot(Heard(ClockOf(s, Dropout).value, ms, now).0) else s
    case OtherForm => if s.EmptySlot? then OtherSlot else s
  }

  /** `pb_eval_tick_state_entry`: the slot after a tick, and whether it fired something. */
  function TickSlot(s: Slot, now: nat): (Slot, bool)
    requires WellFormed(s)
  {
    match s
    case RingSlot(window, samples) => (s.(samples := Evict(samples, Cutoff(now, window))), false)
    case BarSlot(width, bar) =>
      var (b, out) := Bars.TimeTick(bar, width, now);
      (s.(bar := b), out.Some?)
    case ClockSlot(c) =>
      var (c', out) := TickClock(c, now);
      (s.(clock := c'), out != Nothing)
    case _ => (s, false)
  }

  /** A slot that a tick may still fire: a clock that is due, or a bar whose window is over. */
  predicate Ripe(s: Slot, now: nat) {
    (s.ClockSlot? && Due(s.clock, now)) || (s.BarSlot? && Bars.TimeTick(s.bar, s.width, now).1.Some?)
  }

  /** A slot's deadline is as it was or after `d`, and the slot does not ripen at `d`. */
  predicate Keeps(s: Slot, s': Slot, d: nat)
    requires WellFormed(s)
  {
    WellFormed(s') && (s' == s || (Above(s', d) && !Ripe(s', d)) || (Deadline(s') == Deadline(s) && (Ripe(s', d) ==> Ripe(s, d))))
  }

  lemma {:induction false} RingAbove(window: nat, samples: seq<Sample>, d: nat)
    requires window > 0 && d < U64_MAX && (samples != [] ==> samples[0].t >= Cutoff(d, window))
    ensures Above(RingSlot(window, samples), d)
  {
  }

  lemma {:induction false} BarKeeps(s: Slot, width: nat, x: real, d: nat)
    requires WellFormed(s) && d < U64_MAX && (s.BarSlot? || (s.EmptySlot? && width > 0))
    ensures Keeps(s, Call(s, BarForm(width, x), d), d)
  {
    Bars.AlignedSame(d, d, if s.BarSlot? then s.width else width);
  }

  lemma {:induction false} ClockKeeps(s: Slot, form: Form, d: nat)
    requires WellFormed(s) && (form.RetainForm? || form.AggregateForm? || form.SilenceForm? || form.DropoutForm?)
    ensures Keeps(s, Call(s, form, d), d)
  {
  }

  /** Every form call at time `d` keeps the slot in this sense; a slot it creates is after `d`. */
  lemma {:induction false} CallKeeps(s: Slot, form: Form, d: nat)
    requires WellFormed(s) && d < U64_MAX
    ensures Keeps(s, Call(s, form, d), d)
  {
    match form
    case WindowForm(window, x) =>
      if s.RingSlot? { RingAbove(s.window, Call(s, form, d).samples, d); }
    case ThrottleForm(window, max) =>
      if s.RingSlot? { RingAbove(s.window, Call(s, form, d).samples, d); }
    case BarForm(width, x) =>
      if s.BarSlot? || (s.EmptySlot? && width > 0) { BarKeeps(s, width, x, d); }
    case OtherForm =>
    case _ => ClockKeeps(s, form, d);
  }

  /** A tick at `d`, when no deadline is before `d`, leaves every deadline after `d`. */
  lemma {:induction false} TickAdvances(s: Slot, d: nat)
    requires WellFormed(s) && DueFrom(s, d) && d < U64_MAX
    ensures var s' := TickSlot(s, d).0;
      WellFormed(s') && Above(s', d) && !Ripe(s', d)
  {
  }

  /** The clock has not run backwards since the slot's bar was opened. */
  predicate Began(s: Slot, t: nat) {
    s.BarSlot? && s.bar.count > 0 ==> s.bar.start <= t
  }

  /** A tick fires a clock that is due, an aggregate! only if it has samples, and a bar whose window is over. */
  lemma {:induction false} FiresExactly(s: Slot, t: nat)
    requires WellFormed(s) && t < U64_MAX && Began(s, t)
    ensures TickSlot(s, t).1 <==>
      (s.ClockSlot? && s.clock.armed && s.clock.deadline <= t && (s.clock.kind == Aggregate ==> s.clock.bucket != [])) ||
      (s.BarSlot? && s.bar.count > 0 && s.bar.start + s.width <= t)
  {
  }

  /** The deadline of a slot is exactly when a tick first matters to it: neither earlier nor later. */
  lemma {:induction false} DeadlineExact(s: Slot, t: nat)
    requires WellFormed(s) && t < U64_MAX && Began(s, t)
    ensures TickSlot(s, t).0 != s <==> Deadline(s).Some? && Deadline(s).value <= t
  {
    match s
    case RingSlot(window, samples) => RingDeadline(window, samples, t);
    case _ =>
  }

  lemma {:induction false} RingDeadline(window: nat, samples: seq<Sample>, t: nat)
    requires window > 0 && t < U64_MAX
    ensures Evict(samples, Cutoff(t, window)) != samples <==> samples != [] && samples[0].t + window < t
  {
    if samples != [] && samples[0].t < Cutoff(t, window) {
      EvictFirst(samples, Cutoff(t, window));
      assert |Evict(samples[1..], Cutoff(t, window))| < |samples|;
    }
  }

  /** sample! and aggregate!, whose deadline moves one interval at a time. */
  predicate Periodic(s: Slot) {
    s.ClockSlot? && (s.clock.kind == Sampler || s.clock.kind == Aggregate)
  }

  /** A late tick leaves a slot due in exactly one case: a periodic clock that has missed an interval. */
  lemma {:induction false} LateTickLags(s: Slot, d: nat)
    requires WellFormed(s) && d < U64_MAX
    ensures WellFormed(TickSlot(s, d).0)
    ensures Above(TickSlot(s, d).0, d) <==> !(Periodic(s) && s.clock.deadline + s.clock.interval <= d)
  {
    if s.RingSlot? {
      RingAbove(s.window, TickSlot(s, d).0.samples, d);
    }
  }

  /**
   The bound on `d` is exact: at the last representable time a tick fails to advance a slot in
   exactly one case, a time ring that still holds a sample, whose saturated deadline stays due.
   */
  lemma {:induction false} TickStuckOnlyAtMax(s: Slot, d: nat)
    requires WellFormed(s) && DueFrom(s, d) && d <= U64_MAX
    ensures Above(TickSlot(s, d).0, d) <==>
      !(d == U64_MAX && s.RingSlot? && Evict(s.samples, Cutoff(d, s.window)) != [])
  {
    match s
    case RingSlot(window, samples) => RingStuck(window, samples, d);
    case BarSlot(width, bar) => BarAdvances(width, bar, d);
    case ClockSlot(c) => ClockAdvances(c, d);
    case _ =>
  }

  lemma {:induction false} RingStuck(window: nat, samples: seq<Sample>, d: nat)
    requires window > 0 && DueFrom(RingSlot(window, samples), d) && d <= U64_MAX
    ensures var s' := RingSlot(window, Evict(samples, Cutoff(d, window)));
      Above(s', d) <==> !(d == U64_MAX && s'.samples != [])
  {
  }

  lemma {:induction false} BarAdvances(width: nat, bar: Bars.Bar, d: nat)
    requires width > 0 && DueFrom(BarSlot(width, bar), d) && d <= U64_MAX
    ensures Above(BarSlot(width, Bars.TimeTick(bar, width, d).0), d)
  {
  }

  lemma {:induction false} ClockAdvances(c: Clock, d: nat)
    requires WellFormed(ClockSlot(c)) && DueFrom(ClockSlot(c), d)
    ensures Above(ClockSlot(TickClock(c, d).0), d)
  {
  }

  /** A program on which `pb_program_tick_until` would spin at the last representable time. */
  lemma {:induction false} StuckExample()
    ensures var s := RingSlot(1, [Sample(U64_MAX, 0.0)]);
      WellFormed(s) && Deadline(s) == Some(U64_MAX) && TickSlot(s, U64_MAX) == (s, false)
  {
    NothingEvicted([Sample(U64_MAX, 0.0)], Cutoff(U64_MAX, 1));
  }

  lemma {:induction false} NothingEvicted(w: seq<Sample>, cutoff: nat)
    requires w != [] && w[0].t >= cutoff
    ensures Evict(w, cutoff) == w
  {
  }

  // ----- all slots of all rules -----

  type Rules = seq<seq<Slot>>

  predicate RuleWellFormed(slots: seq<Slot>) {
    forall i :: 0 <= i < |slots| ==> WellFormed(slots[i])
  }

  predicate RuleDueFrom(slots: seq<Slot>, d: nat) {
    forall i :: 0 <= i < |slots| ==> DueFrom(slots[i], d)
  }

  predicate RuleAbove(slots: seq<Slot>, d: nat) {
    forall i :: 0 <= i < |slots| ==> Above(slots[i], d)
  }

  /** Only periodic clocks are still due. */
  predicate RuleSettled(slots: seq<Slot>, d: nat) {
    forall i :: 0 <= i < |slots| ==> Above(slots[i], d) || Periodic(slots[i])
  }

  predicate AllWellFormed(rules: Rules) {
    forall r :: 0 <= r < |rules| ==> RuleWellFormed(rules[r])
  }

  /** No deadline is before `d`. */
  predicate AllDueFrom(rules: Rules, d: nat) {
    forall r :: 0 <= r < |rules| ==> RuleDueFrom(rules[r], d)
  }

  predicate AllAbove(rules: Rules, d: nat) {
    forall r :: 0 <= r < |rules| ==> RuleAbove(rules[r], d)
  }

  predicate AllSettled(rules: Rules, d: nat) {
    forall r :: 0 <= r < |rules| ==> RuleSettled(rules[r], d)
  }

  /** A tick at `t` changes no slot of the rule. */
  predicate RuleIdle(slots: seq<Slot>, t: nat) {
    RuleWellFormed(slots) && forall i :: 0 <= i < |slots| ==> TickSlot(slots[i], t).0 == slots[i]
  }

  /** A tick at `t` changes nothing. */
  predicate AllIdle(rules: Rules, t: nat) {
    forall r :: 0 <= r < |rules| ==> RuleIdle(rules[r], t)
  }

  predicate AllBegan(rules: Rules, t: nat) {
    forall r, i :: 0 <= r < |rules| && 0 <= i < |rules[r]| ==> Began(rules[r][i], t)
  }

  lemma {:induction false} RuleIdleBefore(slots: seq<Slot>, t: nat)
    requires RuleWellFormed(slots) && t < U64_MAX && forall i :: 0 <= i < |slots| ==> Began(slots[i], t)
    ensures RuleIdle(slots, t) <==> RuleAbove(slots, t)
  {
    forall i | 0 <= i < |slots|
      ensures TickSlot(slots[i], t).0 == slots[i] <==> Above(slots[i], t)
    {
      DeadlineExact(slots[i], t);
    }
  }

  lemma {:induction false} IdleBefore(rules: Rules, t: nat)
    requires AllWellFormed(rules) && t < U64_MAX && AllBegan(rules, t)
    ensures AllIdle(rules, t) <==> AllAbove(rules, t)
  {
    forall r | 0 <= r < |rules|
      ensures RuleIdle(rules[r], t) <==> RuleAbove(rules[r], t)
    {
      assert RuleWellFormed(rules[r]);
      RuleIdleBefore(rules[r], t);
    }
  }

  /** The next deadline is the first time at which a tick does anything. */
  lemma {:induction false} NextTickMatters(rules: Rules, best: nat, t: nat)
    requires AllWellFormed(rules) && AllDueFrom(rules, best) && (forall d: nat :: AllAbove(rules, d) ==> d < best)
    requires best < U64_MAX && t <= best && AllBegan(rules, t)
    ensures AllIdle(rules, t) <==> t < best
  {
    IdleBefore(rules, t);
    if t < best {
      DueFromAbove(rules, best, t);
    }
  }

  /** How many of the slots from number `i` on a tick at `d` may fire. */
  function RipeFrom(slots: seq<Slot>, i: nat, d: nat): nat
    requires i <= |slots|
    decreases |slots| - i
  {
    if i == |slots| then 0 else (if Ripe(slots[i], d) then 1 else 0) + RipeFrom(slots, i + 1, d)
  }

  /** From slot `k` on no slot is lost and none has ripened, new ones included. */
  predicate NoneRipens(a: seq<Slot>, b: seq<Slot>, k: nat, d: nat) {
    |a| <= |b| && forall i :: k <= i < |b| ==> (Ripe(b[i], d) ==> i < |a| && Ripe(a[i], d))
  }

  predicate NoneRipensAll(a: Rules, b: Rules, d: nat) {
    |a| == |b| && forall r :: 0 <= r < |a| ==> NoneRipens(a[r], b[r], 0, d)
  }

  lemma {:induction false} NoneRipensTrans(a: Rules, b: Rules, c: Rules, d: nat)
    requires NoneRipensAll(a, b, d) && NoneRipensAll(b, c, d)
    ensures NoneRipensAll(a, c, d)
  {
    forall r | 0 <= r < |a|
      ensures NoneRipens(a[r], c[r], 0, d)
    {
      assert NoneRipens(a[r], b[r], 0, d) && NoneRipens(b[r], c[r], 0, d);
    }
  }

  lemma {:induction false} RipeFromFewer(a: seq<Slot>, b: seq<Slot>, i: nat, d: nat)
    requires NoneRipens(a, b, i, d) && i <= |b|
    ensures RipeFrom(b, i, d) <= if i <= |a| then RipeFrom(a, i, d) else 0
    decreases |b| - i
  {
    if i < |b| {
      RipeFromFewer(a, b, i + 1, d);
    }
  }

  // ----- what one tick does to each slot -----

  datatype Action = Called(form: Form) | Ticked

  function Act(s: Slot, a: Action, d: nat): Slot {
    match a
    case Called(form) => Call(s, form, d)
    case Ticked => if WellFormed(s) then TickSlot(s, d).0 else s
  }

  /** The slot that results from these actions at time `d`. */
  function Replay(s: Slot, actions: seq<Action>, d: nat): Slot {
    if actions == [] then s else Act(Replay(s, actions[..|actions| - 1], d), actions[|actions| - 1], d)
  }

  function TickCount(actions: seq<Action>): nat {
    if actions == [] then 0
    else TickCount(actions[..|actions| - 1]) + if actions[|actions| - 1] == Ticked then 1 else 0
  }

  lemma {:induction false} CallPeriodic(s: Slot, form: Form, d: nat)
    requires Periodic(s)
    ensures Periodic(Call(s, form, d))
  {
  }

  lemma {:induction false} ActAdvances(s: Slot, a: Action, d: nat)
    requires WellFormed(s) && d < U64_MAX
    ensures WellFormed(Act(s, a, d)) && (Above(s, d) ==> Above(Act(s, a, d), d)) && (DueFrom(s, d) ==> DueFrom(Act(s, a, d), d))
    ensures Above(s, d) || Periodic(s) || a == Ticked ==> Above(Act(s, a, d), d) || Periodic(Act(s, a, d))
    ensures a == Ticked && DueFrom(s, d) ==> Above(Act(s, a, d), d)
  {
    match a
    case Called(form) =>
      CallKeeps(s, form, d);
      if Periodic(s) {
        CallPeriodic(s, form, d);
      }
    case Ticked =>
      LateTickLags(s, d);
      if DueFrom(s, d) {
        TickAdvances(s, d);
      }
  }

  /** Calls and ticks at `d`: a tick settles the slot, and advances it past `d` when it was not late. */
  lemma {:induction false} ReplayAdvances(s: Slot, actions: seq<Action>, d: nat)
    requires WellFormed(s) && d < U64_MAX
    ensures var s' := Replay(s, actions, d);
      WellFormed(s') && (Above(s, d) ==> Above(s', d)) && (DueFrom(s, d) ==> DueFrom(s', d)) &&
      (Above(s, d) || TickCount(actions) > 0 ==> Above(s', d) || Periodic(s')) &&
      (DueFrom(s, d) && TickCount(actions) > 0 ==> Above(s', d))
    decreases |actions|
  {
    if actions != [] {
      var n := |actions| - 1;
      ReplayAdvances(s, actions[..n], d);
      ActAdvances(Replay(s, actions[..n], d), actions[n], d);
    }
  }

  /** For every slot, what was done to it, in order. */
  type History = seq<seq<seq<Action>>>

  predicate ExplainsRule(a: seq<Slot>, h: seq<seq<Action>>, b: seq<Slot>, d: nat) {
    |a| <= |b| == |h| &&
    forall i :: 0 <= i < |b| ==> b[i] == Replay(if i < |a| then a[i] else EmptySlot, h[i], d)
  }

  /** `h` accounts for `b`, starting from `a`; slots beyond those of `a` started empty. */
  predicate Explains(a: Rules, h: History, b: Rules, d: nat) {
    |a| == |h| == |b| && forall r :: 0 <= r < |a| ==> ExplainsRule(a[r], h[r], b[r], d)
  }

  /** In one rule, every slot that was there is ticked exactly once; a slot created meanwhile at most once. */
  predicate RuleOnce(a: seq<Slot>, h: seq<seq<Action>>) {
    |a| <= |h| && forall i :: 0 <= i < |h| ==> TickCount(h[i]) <= 1 && (i < |a| ==> TickCount(h[i]) == 1)
  }

  /** `h` is one tick of the whole program, whatever the fired bodies call. */
  predicate OnceEach(a: Rules, h: History) {
    |a| == |h| && forall r :: 0 <= r < |a| ==> RuleOnce(a[r], h[r])
  }

  lemma {:induction false} TickedRule(a: seq<Slot>, h: seq<seq<Action>>, b: seq<Slot>, d: nat)
    requires RuleWellFormed(a) && ExplainsRule(a, h, b, d) && RuleOnce(a, h) && d < U64_MAX
    ensures RuleSettled(b, d) && (RuleDueFrom(a, d) ==> RuleAbove(b, d))
  {
    forall i | 0 <= i < |b|
      ensures Above(b[i], d) || Periodic(b[i])
      ensures RuleDueFrom(a, d) ==> Above(b[i], d)
    {
      ReplayAdvances(if i < |a| then a[i] else EmptySlot, h[i], d);
    }
  }

  /** After a tick only periodic clocks that were late are still due; when nothing was late, nothing is. */
  lemma {:induction false} TickSettles(a: Rules, h: History, b: Rules, d: nat)
    requires AllWellFormed(a) && Explains(a, h, b, d) && OnceEach(a, h) && d < U64_MAX
    ensures AllSettled(b, d) && (AllDueFrom(a, d) ==> AllAbove(b, d))
  {
    forall r | 0 <= r < |b|
      ensures RuleSettled(b[r], d) && (AllDueFrom(a, d) ==> RuleAbove(b[r], d))
    {
      assert ExplainsRule(a[r], h[r], b[r], d) && RuleOnce(a[r], h[r]) && RuleWellFormed(a[r]);
      TickedRule(a[r], h[r], b[r], d);
    }
  }

  lemma {:induction false} CallsKeepRule(a: seq<Slot>, h: seq<seq<Action>>, b: seq<Slot>, d: nat)
    requires RuleWellFormed(a) && ExplainsRule(a, h, b, d) && RuleAbove(a, d) && d < U64_MAX
    ensures RuleAbove(b, d)
  {
    forall i | 0 <= i < |b|
      ensures Above(b[i], d)
    {
      ReplayAdvances(if i < |a| then a[i] else EmptySlot, h[i], d);
    }
  }

  lemma {:induction false} CallsKeepAbove(a: Rules, h: History, b: Rules, d: nat)
    requires AllWellFormed(a) && Explains(a, h, b, d) && AllAbove(a, d) && d < U64_MAX
    ensures AllAbove(b, d)
  {
    forall r | 0 <= r < |b|
      ensures RuleAbove(b[r], d)
    {
      assert ExplainsRule(a[r], h[r], b[r], d) && RuleAbove(a[r], d) && RuleWellFormed(a[r]);
      CallsKeepRule(a[r], h[r], b[r], d);
    }
  }

  /** Calls add no ticks. */
  predicate RuleSameTicks(h: seq<seq<Action>>, h': seq<seq<Action>>) {
    |h| <= |h'| &&
    (forall i :: 0 <= i < |h| ==> TickCount(h'[i]) == TickCount(h[i])) &&
    (forall i :: |h| <= i < |h'| ==> TickCount(h'[i]) == 0)
  }

  predicate SameTicks(h: History, h': History) {
    |h| == |h'| && forall r :: 0 <= r < |h| ==> RuleSameTicks(h[r], h'[r])
  }

  lemma {:induction false} SameTicksTrans(h: History, h1: History, h2: History)
    requires SameTicks(h, h1) && SameTicks(h1, h2)
    ensures SameTicks(h, h2)
  {
    forall r | 0 <= r < |h|
      ensures RuleSameTicks(h[r], h2[r])
    {
      assert RuleSameTicks(h[r], h1[r]) && RuleSameTicks(h1[r], h2[r]);
    }
  }

  lemma {:induction false} SameTicksSelf(h: History)
    ensures SameTicks(h, h)
  {
  }

  /** Nothing done yet. */
  function NoHistory(rules: Rules): (h: History)
    ensures |h| == |rules| && forall r :: 0 <= r < |h| ==> h[r] == seq(|rules[r]|, i => [])
  {
    seq(|rules|, r requires 0 <= r < |rules| => seq(|rules[r]|, i => []))
  }

  lemma {:induction false} NothingDone(rules: Rules, d: nat)
    ensures Explains(rules, NoHistory(rules), rules, d) && Progress(rules, NoHistory(rules), 0, 0)
    ensures SameTicks(NoHistory(rules), NoHistory(rules))
  {
  }

  lemma {:induction false} ReplaySnoc(s: Slot, actions: seq<Action>, a: Action, d: nat)
    ensures Replay(s, actions + [a], d) == Act(Replay(s, actions, d), a, d)
    ensures TickCount(actions + [a]) == TickCount(actions) + if a == Ticked then 1 else 0
  {
    assert (actions + [a])[..|actions|] == actions;
  }

  /** One more action on slot `i` of a rule, which may be one past the last. */
  function Acted(h: seq<seq<Action>>, i: nat, a: Action): seq<seq<Action>>
    requires i <= |h|
  {
    if i < |h| then h[i := h[i] + [a]] else h + [[a]]
  }

  /** A call on slot `i` of a rule; one past the last creates the slot. */
  function CallAt(slots: seq<Slot>, i: nat, form: Form, d: nat): seq<Slot>
    requires i <= |slots|
  {
    if i < |slots| then slots[i := Call(slots[i], form, d)] else slots + [Call(EmptySlot, form, d)]
  }

  lemma {:induction false} CallAtKeeps(slots: seq<Slot>, i: nat, form: Form, d: nat)
    requires RuleWellFormed(slots) && i <= |slots| && d < U64_MAX
    ensures var slots' := CallAt(slots, i, form, d);
      RuleWellFormed(slots') && NoneRipens(slots, slots', 0, d)
  {
    CallKeeps(if i < |slots| then slots[i] else EmptySlot, form, d);
  }

  lemma {:induction false} ExplainsCall(a: seq<Slot>, h: seq<seq<Action>>, b: seq<Slot>, i: nat, form: Form, d: nat)
    requires ExplainsRule(a, h, b, d) && i <= |b|
    ensures ExplainsRule(a, Acted(h, i, Called(form)), CallAt(b, i, form, d), d)
    ensures RuleSameTicks(h, Acted(h, i, Called(form)))
  {
    var old' := if i < |h| then h[i] else [];
    ReplaySnoc(if i < |a| then a[i] else EmptySlot, old', Called(form), d);
    assert [] + [Called(form)] == [Called(form)];
  }

  lemma {:induction false} ExplainsTick(a: seq<Slot>, h: seq<seq<Action>>, b: seq<Slot>, i: nat, d: nat)
    requires ExplainsRule(a, h, b, d) && i < |b| && WellFormed(b[i])
    ensures ExplainsRule(a, Acted(h, i, Ticked), b[i := TickSlot(b[i], d).0], d)
    ensures TickedAt(h, Acted(h, i, Ticked), i)
  {
    ReplaySnoc(if i < |a| then a[i] else EmptySlot, h[i], Ticked, d);
  }

  /** Only a ripe slot fires. */
  lemma {:induction false} FiresRipe(s: Slot, d: nat)
    requires WellFormed(s) && TickSlot(s, d).1
    ensures Ripe(s, d)
  {
  }

  /** One more tick of slot `i`, none elsewhere. */
  predicate TickedAt(h: seq<seq<Action>>, h': seq<seq<Action>>, i: nat) {
    |h| == |h'| && forall k :: 0 <= k < |h| ==> TickCount(h'[k]) == TickCount(h[k]) + if k == i then 1 else 0
  }

  /** Slots before `i` of a rule have been ticked once, those from `i` on not yet. */
  predicate RuleAt(a: seq<Slot>, h: seq<seq<Action>>, i: nat) {
    |a| <= |h| &&
    (forall k :: 0 <= k < |h| && k < i ==> TickCount(h[k]) <= 1 && (k < |a| ==> TickCount(h[k]) == 1)) &&
    (forall k :: i <= k < |h| ==> TickCount(h[k]) == 0)
  }

  /** The tick loop is at slot `i` of rule `r`. */
  predicate Progress(from: Rules, h: History, r: nat, i: nat) {
    |from| == |h| && r <= |h| &&
    (forall q :: 0 <= q < r ==> RuleOnce(from[q], h[q])) &&
    (r < |h| ==> RuleAt(from[r], h[r], i)) &&
    (forall q :: r < q < |h| ==> RuleAt(from[q], h[q], 0))
  }

  lemma {:induction false} ProgressStep(from: Rules, h: History, acted: seq<seq<Action>>, h': History, r: nat, i: nat)
    requires Progress(from, h, r, i) && r < |h| && i < |h[r]|
    requires TickedAt(h[r], acted, i) && SameTicks(h[r := acted], h')
    ensures Progress(from, h', r, i + 1)
  {
    forall q | 0 <= q < |h|
      ensures q < r ==> RuleOnce(from[q], h'[q])
      ensures q == r ==> RuleAt(from[q], h'[q], i + 1)
      ensures q > r ==> RuleAt(from[q], h'[q], 0)
    {
      assert RuleSameTicks(h[r := acted][q], h'[q]);
      if q < r { assert RuleOnce(from[q], h[q]); }
      if q > r { assert RuleAt(from[q], h[q], 0); }
    }
  }

  lemma {:induction false} ProgressNextRule(from: Rules, h: History, r: nat)
    requires r < |h| && Progress(from, h, r, |h[r]|)
    ensures Progress(from, h, r + 1, 0)
  {
  }

  // ----- the code -----

  /** A form call: the rule, the slot in it (one past the last creates it), the form. */
  datatype Op = Op(rule: nat, slot: nat, form: Form)

  /** The slot itself after its tick. */
  function TickedAlone(rules: Rules, r: nat, i: nat, d: nat): Rules
    requires r < |rules| && i < |rules[r]|
  {
    if WellFormed(rules[r][i]) then rules[r := rules[r][i := TickSlot(rules[r][i], d).0]] else rules
  }

  predicate Fires(rules: Rules, r: nat, i: nat, d: nat)
    requires r < |rules| && i < |rules[r]|
  {
    WellFormed(rules[r][i]) && TickSlot(rules[r][i], d).1
  }

  /** A call that is not there does nothing. */
  function Applied(rules: Rules, op: Op, d: nat): Rules {
    if op.rule >= |rules| || op.slot > |rules[op.rule]| then rules
    else rules[op.rule := CallAt(rules[op.rule], op.slot, op.form, d)]
  }

  function AllApplied(rules: Rules, ops: seq<Op>, d: nat): Rules {
    if ops == [] then rules else Applied(AllApplied(rules, ops[..|ops| - 1], d), ops[|ops| - 1], d)
  }

  class Program {
    var rules: Rules
    var fired: nat
    const usesClockTimer: bool
    const script: nat -> seq<Op>  // what the n-th firing runs

    constructor (rules: Rules, usesClockTimer: bool, script: nat -> seq<Op>)
      ensures this.rules == rules && this.usesClockTimer == usesClockTimer && this.script == script
    {
      this.rules, this.usesClockTimer, this.script, fired := rules, usesClockTimer, script, 0;
    }

    /** One form call at time `d`. */
    method Apply(op: Op, d: nat, ghost from: Rules, ghost h: History) returns (ghost h': History)
      requires AllWellFormed(rules) && d < U64_MAX && Explains(from, h, rules, d)
      modifies this`rules
      ensures AllWellFormed(rules) && NoneRipensAll(old(rules), rules, d) && rules == Applied(old(rules), op, d)
      ensures Explains(from, h', rules, d) && SameTicks(h, h')
    {
      h' := h;
      if op.rule >= |rules| || op.slot > |rules[op.rule]| {
        return;
      }
      assert ExplainsRule(from[op.rule], h[op.rule], rules[op.rule], d);
      ExplainsCall(from[op.rule], h[op.rule], rules[op.rule], op.slot, op.form, d);
      h' := h[op.rule := Acted(h[op.rule], op.slot, Called(op.form))];
      assert RuleWellFormed(rules[op.rule]);
      CallAtKeeps(rules[op.rule], op.slot, op.form, d);
      rules := rules[op.rule := CallAt(rules[op.rule], op.slot, op.form, d)];
    }

    /** Some form calls at time `d`. */
    method RunCalls(ops: seq<Op>, d: nat, ghost from: Rules, ghost h: History) returns (ghost h': History)
      requires AllWellFormed(rules) && d < U64_MAX && Explains(from, h, rules, d)
      modifies this`rules
      ensures AllWellFormed(rules) && NoneRipensAll(old(rules), rules, d) && rules == AllApplied(old(rules), ops, d)
      ensures Explains(from, h', rules, d) && SameTicks(h, h')
    {
      h' := h;
      for i := 0 to |ops|
        invariant AllWellFormed(rules) && NoneRipensAll(old(rules), rules, d) && rules == AllApplied(old(rules), ops[..i], d)
        invariant Explains(from, h', rules, d) && SameTicks(h, h')
      {
        ghost var before, h0 := rules, h';
        h' := Apply(ops[i], d, from, h');
        NoneRipensTrans(old(rules), before, rules, d);
        SameTicksTrans(h, h0, h');
        assert ops[..i + 1][..i] == ops[..i];
      }
      assert ops[..|ops|] == ops;
    }

    /** Everything a fired slot runs. */
    method RunBody(d: nat, ghost from: Rules, ghost h: History) returns (ghost h': History)
      requires AllWellFormed(rules) && d < U64_MAX && Explains(from, h, rules, d)
      modifies this
      ensures AllWellFormed(rules) && NoneRipensAll(old(rules), rules, d) && fired == old(fired) + 1
      ensures rules == AllApplied(old(rules), script(old(fired)), d)
      ensures Explains(from, h', rules, d) && SameTicks(h, h')
    {
      fired := fired + 1;
      h' := RunCalls(script(fired - 1), d, from, h);
    }

    /** Tick the slot itself; `fires` says that it has something to run. */
    method TickAt(r: nat, i: nat, d: nat, ghost from: Rules, ghost h: History) returns (fires: bool)
      requires AllWellFormed(rules) && d < U64_MAX
      requires r < |rules| && i < |rules[r]| && Explains(from, h, rules, d)
      modifies this`rules
      ensures AllWellFormed(rules) && |rules| == |old(rules)|
      ensures rules == TickedAlone(old(rules), r, i, d) && |rules[r]| == |old(rules)[r]|
      ensures RipeFrom(rules[r], i + 1, d) <= RipeFrom(old(rules)[r], i, d) - if fires then 1 else 0
      ensures fires == Fires(old(rules), r, i, d)
      ensures Explains(from, h[r := Acted(h[r], i, Ticked)], rules, d) && TickedAt(h[r], Acted(h[r], i, Ticked), i)
    {
      assert RuleWellFormed(rules[r]) && ExplainsRule(from[r], h[r], rules[r], d);
      LateTickLags(rules[r][i], d);
      ExplainsTick(from[r], h[r], rules[r], i, d);
      var (s', f) := TickSlot(rules[r][i], d);
      fires := f;
      if fires {
        FiresRipe(rules[r][i], d);
      }
      RipeFromFewer(rules[r], rules[r][i := s'], i + 1, d);
      rules := rules[r := rules[r][i := s']];
    }

    /** Run the body of a slot of rule `r`: of the slots after number `i`, no more can fire than before. */
    method Fire(r: nat, i: nat, d: nat, ghost from: Rules, ghost h: History) returns (ghost h': History)
      requires AllWellFormed(rules) && d < U64_MAX && Explains(from, h, rules, d)
      requires r < |rules| && i < |rules[r]|
      modifies this
      ensures AllWellFormed(rules) && |rules| == |old(rules)| && i < |rules[r]| && fired == old(fired) + 1
      ensures rules == AllApplied(old(rules), script(old(fired)), d)
      ensures RipeFrom(rules[r], i + 1, d) <= RipeFrom(old(rules)[r], i + 1, d)
      ensures Explains(from, h', rules, d) && SameTicks(h, h')
    {
      ghost var before := rules;
      h' := RunBody(d, from, h);
      assert NoneRipens(before[r], rules[r], 0, d);
      RipeFromFewer(before[r], rules[r], i + 1, d);
    }

    /**
     The body of the inner loop of `pb_program_tick_with_options`: one slot, and whatever it fires.
     Only a firing adds slots, and it leaves fewer that can fire.
     */
    method TickOne(r: nat, i: nat, d: nat, ghost from: Rules, ghost h: History) returns (ghost h': History)
      requires AllWellFormed(rules) && d < U64_MAX
      requires r < |rules| && i < |rules[r]| && Explains(from, h, rules, d)
      modifies this
      ensures AllWellFormed(rules) && |rules| == |old(rules)| && i < |rules[r]|
      ensures RipeFrom(rules[r], i + 1, d) < RipeFrom(old(rules)[r], i, d) ||
              (RipeFrom(rules[r], i + 1, d) <= RipeFrom(old(rules)[r], i, d) && |rules[r]| == |old(rules)[r]|)
      ensures var ticked := TickedAlone(old(rules), r, i, d);
        if Fires(old(rules), r, i, d) then rules == AllApplied(ticked, script(old(fired)), d) && fired == old(fired) + 1
        else rules == ticked && fired == old(fired)
      ensures Explains(from, h', rules, d)
      ensures TickedAt(h[r], Acted(h[r], i, Ticked), i) && SameTicks(h[r := Acted(h[r], i, Ticked)], h')
    {
      var fires := TickAt(r, i, d, from, h);
      h' := h[r := Acted(h[r], i, Ticked)];
      if fires {
        h' := Fire(r, i, d, from, h');
      } else {
        SameTicksSelf(h');
      }
    }

    /**
     `pb_program_tick_with_options`, early, on time or late: the slot vector of a rule may grow under
     the loop, which ends for every program state and whatever the fired bodies do.
     */
    method Tick(d: nat) returns (ghost h: History)
      requires AllWellFormed(rules) && d < U64_MAX
      modifies this
      ensures Explains(old(rules), h, rules, d) && OnceEach(old(rules), h)
      ensures AllWellFormed(rules) && AllSettled(rules, d) && (AllDueFrom(old(rules), d) ==> AllAbove(rules, d))
    {
      ghost var from := rules;
      h := NoHistory(rules);
      NothingDone(rules, d);
      var r := 0;
      while r < |rules|
        invariant 0 <= r <= |rules| == |from|
        invariant AllWellFormed(rules) && Explains(from, h, rules, d) && Progress(from, h, r, 0)
      {
        h := TickRule(r, d, from, h);
        r := r + 1;
      }
      TickSettles(from, h, rules, d);
    }

    /** The tick loop stands at slot `i` of rule `r`. */
    ghost predicate Standing(from: Rules, h: History, r: nat, i: nat, d: nat)
      reads this`rules
    {
      r < |rules| == |from| && i <= |rules[r]| && AllWellFormed(rules) && Explains(from, h, rules, d) && Progress(from, h, r, i)
    }

    /** One iteration of the inner loop. */
    method TickStep(r: nat, i: nat, d: nat, ghost from: Rules, ghost h: History) returns (ghost h': History)
      requires Standing(from, h, r, i, d) && i < |rules[r]| && d < U64_MAX
      modifies this
      ensures Standing(from, h', r, i + 1, d)
      ensures RipeFrom(rules[r], i + 1, d) < RipeFrom(old(rules)[r], i, d) ||
              (RipeFrom(rules[r], i + 1, d) <= RipeFrom(old(rules)[r], i, d) && |rules[r]| == |old(rules)[r]|)
    {
      assert ExplainsRule(from[r], h[r], rules[r], d);
      h' := TickOne(r, i, d, from, h);
      ProgressStep(from, h, Acted(h[r], i, Ticked), h', r, i);
    }

    /** The inner loop, over the slots of rule `r`. */
    method TickRule(r: nat, d: nat, ghost from: Rules, ghost h: History) returns (ghost h': History)
      requires r < |rules| && d < U64_MAX && Standing(from, h, r, 0, d)
      modifies this
      ensures |rules| == |old(rules)| && AllWellFormed(rules)
      ensures Explains(from, h', rules, d) && Progress(from, h', r + 1, 0)
    {
      h' := h;
      var i := 0;
      while i < |rules[r]|
        invariant |rules| == |old(rules)| && Standing(from, h', r, i, d)
        decreases RipeFrom(rules[r], i, d), |rules[r]| - i
      {
        h' := TickStep(r, i, d, from, h');
        i := i + 1;
      }
      assert ExplainsRule(from[r], h'[r], rules[r], d);
      ProgressNextRule(from, h', r);
    }

    /** `pb_program_next_clock_deadline`: the least deadline of any slot. */
    method NextDeadline() returns (best: Option<nat>)
      ensures !usesClockTimer ==> best == None
      ensures usesClockTimer && best == None ==> forall d: nat :: AllAbove(rules, d)
      ensures best.Some? ==> AllDueFrom(rules, best.value)
      ensures best.Some? ==> forall d: nat :: AllAbove(rules, d) ==> d < best.value
    {
      best := None;
      if !usesClockTimer {
        return;
      }
      ghost var w := (0, 0);
      for r := 0 to |rules|
        invariant forall q :: 0 <= q < r ==> LeastSoFar(rules[q], best)
        invariant best.Some? ==> 0 <= w.0 < |rules| && 0 <= w.1 < |rules[w.0]| && Deadline(rules[w.0][w.1]) == best
      {
        for i := 0 to |rules[r]|
          invariant forall q :: 0 <= q < r ==> LeastSoFar(rules[q], best)
          invariant LeastSoFar(rules[r][..i], best)
          invariant best.Some? ==> 0 <= w.0 < |rules| && 0 <= w.1 < |rules[w.0]| && Deadline(rules[w.0][w.1]) == best
        {
          var d := Deadline(rules[r][i]);
          if d.Some? && (best == None || d.value < best.value) {
            best, w := d, (r, i);
          }
        }
        assert rules[r][..|rules[r]|] == rules[r];
      }
      if best.Some? {
        forall d: nat | AllAbove(rules, d)
          ensures d < best.value
        {
          assert RuleAbove(rules[w.0], d) && Above(rules[w.0][w.1], d);
        }
      }
    }

    /**
     `pb_program_tick_until`: for every program state and whatever the fired bodies do, the loop
     ends, ticks happen at strictly increasing times up to `now`, each ticks every slot once, and
     nothing due remains. `run` is what happened to the program before.
     */
    method TickUntil(now: nat, ghost run: Run) returns (ticks: seq<nat>, ghost run': Run)
      requires AllWellFormed(rules) && now < U64_MAX && Driven(run, rules)
      modifies this
      ensures AllWellFormed(rules) && Driven(run', rules) && Extends(run, run', ticks)
      ensures if usesClockTimer then AllAbove(rules, now) else rules == old(rules)
      ensures Increasing(ticks) && forall k :: 0 <= k < |ticks| ==> ticks[k] <= now
    {
      ticks, run' := [], run;
      var next: Option<nat> := NextDeadline();
      while next.Some? && next.value <= now
        invariant AllWellFormed(rules) && Driven(run', rules) && Extends(run, run', ticks)
        invariant !usesClockTimer ==> next == None && rules == old(rules)
        invariant usesClockTimer && next == None ==> AllAbove(rules, now)
        invariant next.Some? ==> AllDueFrom(rules, next.value) && forall d: nat :: AllAbove(rules, d) ==> d < next.value
        invariant TicksPast(ticks, now, rules)
        decreases if next.Some? then now + 1 - next.value else 0
      {
        ghost var before, d := rules, next.value;
        ghost var h := Tick(next.value);
        run' := RunTicked(run', before, h, rules, d);
        TicksNext(ticks, now, before, d, rules);
        ticks := ticks + [next.value];
        next := NextDeadline();
      }
      if next.Some? {
        DueFromAbove(rules, next.value, now);
      }
    }

    /**
     An event at `now`, as `src/main.c` and the importers feed it: ticks catch up, then the rules are
     evaluated, which call some forms. A program with a clock timer goes on with its run.
     */
    method OnEvent(now: nat, calls: seq<Op>, ghost run: Run) returns (ticks: seq<nat>, ghost before: Rules, ghost run': Run)
      requires AllWellFormed(rules) && now < U64_MAX && Driven(run, rules)
      requires forall k :: 0 <= k < |run.moments| ==> run.moments[k].time <= now
      modifies this
      ensures AllWellFormed(rules) && rules == AllApplied(before, calls, now)
      ensures !usesClockTimer ==> before == old(rules)
      ensures usesClockTimer ==> AllAbove(before, now) && |run'.states| > 1 && run'.states[|run'.states| - 2] == before
      ensures usesClockTimer ==> Driven(run', rules) && run.moments <= run'.moments &&
                                 forall k :: 0 <= k < |run'.moments| ==> run'.moments[k].time <= now
    {
      ticks, run' := TickUntil(now, run);
      before := rules;
      NothingDone(rules, now);
      ghost var h := RunCalls(calls, now, rules, NoHistory(rules));
      if usesClockTimer {
        ExtendsWithin(run, run', ticks, now);
        run' := RunCalled(run', before, h, rules, now);
      }
    }
  }

  predicate Increasing(ticks: seq<nat>) {
    forall j, k :: 0 <= j < k < |ticks| ==> ticks[j] < ticks[k]
  }

  predicate TicksPast(ticks: seq<nat>, now: nat, rules: Rules) {
    Increasing(ticks) && forall k :: 0 <= k < |ticks| ==> ticks[k] <= now && AllAbove(rules, ticks[k])
  }

  lemma {:induction false} TicksNext(ticks: seq<nat>, now: nat, before: Rules, d: nat, rules: Rules)
    requires TicksPast(ticks, now, before) && d <= now && AllAbove(rules, d)
    requires forall t: nat :: AllAbove(before, t) ==> t < d
    ensures TicksPast(ticks + [d], now, rules)
  {
    forall k | 0 <= k < |ticks|
      ensures ticks[k] < d && AllAbove(rules, ticks[k])
    {
      AboveEarlier(rules, ticks[k], d);
    }
  }

  // ----- whole runs -----

  /** A tick, or an event whose rules call forms: when it was, and what was done to each slot. */
  datatype Moment = Moment(time: nat, event: bool, history: History)

  /** The states of a program before, between and after its moments. */
  datatype Run = Run(states: seq<Rules>, moments: seq<Moment>)

  /** Ticks tick every slot once; an event finds nothing due and ticks nothing. */
  predicate Happened(a: Rules, m: Moment, b: Rules) {
    m.time < U64_MAX && AllWellFormed(a) && Explains(a, m.history, b, m.time) &&
    if m.event then AllAbove(a, m.time) && SameTicks(NoHistory(a), m.history)
    else AllDueFrom(a, m.time) && OnceEach(a, m.history)
  }

  predicate InTimeOrder(moments: seq<Moment>) {
    forall j, k :: 0 <= j < k < |moments| ==> moments[j].time <= moments[k].time
  }

  /** A run that leads to `rules`, in which every event was caught up with first. */
  ghost predicate Driven(run: Run, rules: Rules) {
    |run.states| == |run.moments| + 1 && run.states[|run.moments|] == rules && InTimeOrder(run.moments) &&
    (forall k :: 0 <= k < |run.moments| ==> Happened(run.states[k], run.moments[k], run.states[k + 1])) &&
    forall k :: 0 <= k < |run.moments| ==> AllAbove(rules, run.moments[k].time)
  }

  /** `run'` goes on with ticks at these times. */
  ghost predicate Extends(run: Run, run': Run, ticks: seq<nat>) {
    |run'.moments| == |run.moments| + |ticks| && run.moments <= run'.moments && run.states <= run'.states &&
    forall k :: 0 <= k < |ticks| ==>
      run'.moments[|run.moments| + k].time == ticks[k] && !run'.moments[|run.moments| + k].event
  }

  lemma {:induction false} ExtendsWithin(run: Run, run': Run, ticks: seq<nat>, now: nat)
    requires Extends(run, run', ticks)
    requires forall k :: 0 <= k < |run.moments| ==> run.moments[k].time <= now
    requires forall k :: 0 <= k < |ticks| ==> ticks[k] <= now
    ensures forall k :: 0 <= k < |run'.moments| ==> run'.moments[k].time <= now
  {
    forall k | 0 <= k < |run'.moments|
      ensures run'.moments[k].time <= now
    {
      if k < |run.moments| {
        assert run'.moments[k] == run.moments[k];
      } else {
        assert run'.moments[|run.moments| + (k - |run.moments|)].time == ticks[k - |run.moments|];
      }
    }
  }

  lemma {:induction false} AboveEarlier(rules: Rules, t: nat, d: nat)
    requires AllAbove(rules, d) && t <= d
    ensures AllAbove(rules, t)
  {
    forall r | 0 <= r < |rules|
      ensures RuleAbove(rules[r], t)
    {
      assert RuleAbove(rules[r], d);
    }
  }

  /** One more moment that leaves nothing due. */
  lemma {:induction false} RunSnoc(run: Run, a: Rules, m: Moment, b: Rules) returns (run': Run)
    requires Driven(run, a) && Happened(a, m, b) && AllAbove(b, m.time)
    requires forall k :: 0 <= k < |run.moments| ==> run.moments[k].time <= m.time
    ensures Driven(run', b) && run'.moments == run.moments + [m] && run'.states == run.states + [b]
  {
    run' := Run(run.states + [b], run.moments + [m]);
    forall k | 0 <= k < |run'.moments|
      ensures Happened(run'.states[k], run'.moments[k], run'.states[k + 1]) && AllAbove(b, run'.moments[k].time)
    {
      if k < |run.moments| {
        assert Happened(run.states[k], run.moments[k], run.states[k + 1]);
      }
      AboveEarlier(b, run'.moments[k].time, m.time);
    }
  }

  lemma {:induction false} RunTicked(run: Run, a: Rules, h: History, b: Rules, d: nat) returns (run': Run)
    requires Driven(run, a) && AllWellFormed(a) && d < U64_MAX && AllDueFrom(a, d) && forall t: nat :: AllAbove(a, t) ==> t < d
    requires Explains(a, h, b, d) && OnceEach(a, h) && AllAbove(b, d)
    ensures Driven(run', b) && run'.moments == run.moments + [Moment(d, false, h)] && run'.states == run.states + [b]
  {
    run' := RunSnoc(run, a, Moment(d, false, h), b);
  }

  lemma {:induction false} RunCalled(run: Run, a: Rules, h: History, b: Rules, d: nat) returns (run': Run)
    requires Driven(run, a) && AllWellFormed(a) && d < U64_MAX && AllAbove(a, d)
    requires forall k :: 0 <= k < |run.moments| ==> run.moments[k].time <= d
    requires Explains(a, h, b, d) && SameTicks(NoHistory(a), h)
    ensures Driven(run', b) && run'.moments == run.moments + [Moment(d, true, h)] && run'.states == run.states + [b]
  {
    CallsKeepAbove(a, h, b, d);
    run' := RunSnoc(run, a, Moment(d, true, h), b);
  }

  /** No slot is due before `best`, none at all when there is no `best`. */
  predicate LeastSoFar(slots: seq<Slot>, best: Option<nat>) {
    forall i :: 0 <= i < |slots| ==> Deadline(slots[i]).None? || (best.Some? && best.value <= Deadline(slots[i]).value)
  }

  lemma {:induction false} DueFromAbove(rules: Rules, d: nat, now: nat)
    requires AllDueFrom(rules, d) && now < d
    ensures AllAbove(rules, now)
  {
    forall r | 0 <= r < |rules|
      ensures RuleAbove(rules[r], now)
    {
      assert RuleDueFrom(rules[r], d);
    }
  }

  // ----- aggregate! in a whole run -----

  function SlotAt(rules: Rules, r: nat, i: nat): Slot {
    if r < |rules| && i < |rules[r]| then rules[r][i] else EmptySlot
  }

  function ActionsAt(h: History, r: nat, i: nat): seq<Action> {
    if r < |h| && i < |h[r]| then h[r][i] else []
  }

  lemma {:induction false} ExplainsAt(a: Rules, h: History, b: Rules, d: nat, r: nat, i: nat)
    requires Explains(a, h, b, d)
    ensures SlotAt(b, r, i) == Replay(SlotAt(a, r, i), ActionsAt(h, r, i), d)
  {
    if r < |a| {
      assert ExplainsRule(a[r], h[r], b[r], d);
    }
  }

  /** What an action is to an aggregate! slot. */
  function EventOf(a: Action, d: nat): seq<AggregateEvent> {
    match a
    case Ticked => [AggregateTick(d)]
    case Called(form) =>
      if form.AggregateForm? && form.ms > 0 then [AddSample(d, form.x, form.metric, form.subject)] else []
  }

  function EventsOf(actions: seq<Action>, d: nat): seq<AggregateEvent> {
    if actions == [] then [] else EventsOf(actions[..|actions| - 1], d) + EventOf(actions[|actions| - 1], d)
  }

  /** What slot `i` of rule `r` went through. */
  function SlotEvents(moments: seq<Moment>, r: nat, i: nat): seq<AggregateEvent> {
    if moments == [] then []
    else
      var n := |moments| - 1;
      SlotEvents(moments[..n], r, i) + EventsOf(ActionsAt(moments[n].history, r, i), moments[n].time)
  }

  /** An aggregate! slot of this interval, or one that has not been called yet. */
  predicate Gathers(s: Slot, ms: nat) {
    s.EmptySlot? || (s.ClockSlot? && s.clock.live && s.clock.kind == Aggregate && s.clock.interval == ms)
  }

  predicate Mirrors(s: Slot, c: Clock) {
    if s.EmptySlot? then c == FRESH else s.ClockSlot? && s.clock == c
  }

  /** Every call finds the slot not yet due. */
  predicate CalledInTime(s: Slot, actions: seq<Action>, d: nat) {
    actions == [] ||
    var before, a := actions[..|actions| - 1], actions[|actions| - 1];
    CalledInTime(s, before, d) && (a != Ticked && EventOf(a, d) != [] ==> Above(Replay(s, before, d), d))
  }

  lemma {:induction false} GathersBefore(s: Slot, a: Action, d: nat, ms: nat)
    requires WellFormed(s) && Gathers(Act(s, a, d), ms)
    ensures Gathers(s, ms)
  {
  }

  /** What one action does to the clock of an aggregate! slot. */
  function ClockAct(c: Clock, a: Action, ms: nat, d: nat): Clock
    requires c.live ==> c.interval > 0
  {
    match a
    case Ticked => TickClock(c, d).0
    case Called(form) =>
      if form.AggregateForm? && form.ms > 0 then Gather(c, ms, form.metric, form.subject, form.x, d) else c
  }

  lemma {:induction false} ClockActMirrors(s: Slot, a: Action, d: nat, ms: nat, c: Clock)
    requires ms > 0 && WellFormed(s) && Gathers(Act(s, a, d), ms) && Gathers(s, ms) && Mirrors(s, c)
    ensures Mirrors(Act(s, a, d), ClockAct(c, a, ms, d)) && (Due(c, d) <==> !Above(s, d))
  {
  }

  lemma {:induction false} ClockActRun(a: Action, d: nat, ms: nat, events: seq<AggregateEvent>)
    requires ms > 0
    ensures var c := RunAggregate(ms, events).clock;
      RunAggregate(ms, events + EventOf(a, d)).clock == ClockAct(c, a, ms, d) &&
      (CallsTimely(ms, events + EventOf(a, d)) <==> CallsTimely(ms, events) && (a != Ticked && EventOf(a, d) != [] ==> !Due(c, d)))
  {
    if EventOf(a, d) == [] {
      assert events + [] == events;
    } else {
      assert (events + EventOf(a, d))[..|events|] == events;
    }
  }

  /** One action, in the program and in the run of the slot alone. */
  lemma {:induction false} ActMirrors(s: Slot, a: Action, d: nat, ms: nat, events: seq<AggregateEvent>)
    requires ms > 0 && WellFormed(s) && Gathers(Act(s, a, d), ms) && Gathers(s, ms)
    requires Mirrors(s, RunAggregate(ms, events).clock)
    ensures Mirrors(Act(s, a, d), RunAggregate(ms, events + EventOf(a, d)).clock)
    ensures CallsTimely(ms, events + EventOf(a, d)) <==>
      CallsTimely(ms, events) && (a != Ticked && EventOf(a, d) != [] ==> Above(s, d))
  {
    ClockActRun(a, d, ms, events);
    ClockActMirrors(s, a, d, ms, RunAggregate(ms, events).clock);
  }

  lemma {:induction false} ReplayMirrors(s: Slot, actions: seq<Action>, d: nat, ms: nat, events: seq<AggregateEvent>)
    requires ms > 0 && WellFormed(s) && d < U64_MAX && Gathers(Replay(s, actions, d), ms)
    requires Gathers(s, ms) ==> Mirrors(s, RunAggregate(ms, events).clock)
    ensures Gathers(s, ms)
    ensures Mirrors(Replay(s, actions, d), RunAggregate(ms, events + EventsOf(actions, d)).clock)
    ensures CallsTimely(ms, events + EventsOf(actions, d)) <==> CallsTimely(ms, events) && CalledInTime(s, actions, d)
    decreases |actions|
  {
    if actions == [] {
      assert events + [] == events;
    } else {
      var before, a := actions[..|actions| - 1], actions[|actions| - 1];
      ReplayAdvances(s, before, d);
      GathersBefore(Replay(s, before, d), a, d, ms);
      ReplayMirrors(s, before, d, ms, events);
      ActMirrors(Replay(s, before, d), a, d, ms, events + EventsOf(before, d));
      assert (events + EventsOf(before, d)) + EventOf(a, d) == events + EventsOf(actions, d);
    }
  }

  /** No body that a tick fires calls the slot while it is due, before its own turn. */
  ghost predicate BodiesWait(run: Run, r: nat, i: nat)
    requires |run.states| == |run.moments| + 1
  {
    forall k {:trigger run.moments[k]} :: 0 <= k < |run.moments| && !run.moments[k].event ==>
      CalledInTime(SlotAt(run.states[k], r, i), ActionsAt(run.moments[k].history, r, i), run.moments[k].time)
  }

  /** An event that was caught up with calls nothing that is due. */
  lemma {:induction false} EventInTime(s: Slot, actions: seq<Action>, d: nat)
    requires WellFormed(s) && Above(s, d) && d < U64_MAX
    ensures CalledInTime(s, actions, d)
  {
    if actions != [] {
      EventInTime(s, actions[..|actions| - 1], d);
      ReplayAdvances(s, actions[..|actions| - 1], d);
    }
  }

  /** All the moments up to number `n` kept to the rule of `CalledInTime`. */
  ghost predicate CalledInTimeUpTo(run: Run, n: nat, r: nat, i: nat)
    requires n <= |run.moments| < |run.states|
  {
    forall k {:trigger run.moments[k]} :: 0 <= k < n ==>
      CalledInTime(SlotAt(run.states[k], r, i), ActionsAt(run.moments[k].history, r, i), run.moments[k].time)
  }

  /** The slot is that of its own run, whose calls are timely or not. */
  predicate Mirrored(s: Slot, ms: nat, events: seq<AggregateEvent>, timely: bool)
    requires ms > 0
  {
    Mirrors(s, RunAggregate(ms, events).clock) && (CallsTimely(ms, events) <==> timely)
  }

  ghost predicate MirroredAt(run: Run, n: nat, r: nat, i: nat, ms: nat)
    requires n <= |run.moments| < |run.states| && ms > 0
  {
    Mirrored(SlotAt(run.states[n], r, i), ms, SlotEvents(run.moments[..n], r, i), CalledInTimeUpTo(run, n, r, i))
  }

  /** The slot of a program is the slot of its own run, whose calls are timely when they found it not due. */
  lemma {:induction false} RunMirrors(run: Run, n: nat, rules: Rules, r: nat, i: nat, ms: nat)
    requires Driven(run, rules) && n <= |run.moments| && ms > 0
    requires SlotAt(run.states[0], r, i) == EmptySlot && Gathers(SlotAt(run.states[n], r, i), ms)
    ensures MirroredAt(run, n, r, i, ms)
  {
    if n > 0 {
      if Gathers(SlotAt(run.states[n - 1], r, i), ms) {
        RunMirrors(run, n - 1, rules, r, i, ms);
      }
      MirroredNext(run, n - 1, rules, r, i, ms);
    }
  }

  lemma {:induction false} MirroredNext(run: Run, k: nat, rules: Rules, r: nat, i: nat, ms: nat)
    requires Driven(run, rules) && k < |run.moments| && ms > 0
    requires Gathers(SlotAt(run.states[k], r, i), ms) ==> MirroredAt(run, k, r, i, ms)
    requires Gathers(SlotAt(run.states[k + 1], r, i), ms)
    ensures MirroredAt(run, k + 1, r, i, ms)
  {
    var m, a := run.moments[k], SlotAt(run.states[k], r, i);
    var events, events' := SlotEvents(run.moments[..k], r, i), SlotEvents(run.moments[..k + 1], r, i);
    var timely := CalledInTimeUpTo(run, k, r, i);
    SlotStep(run, rules, k, r, i);
    CalledInTimeNext(run, k, r, i);
    MomentMirrors(a, ActionsAt(m.history, r, i), m.time, ms, events, timely, SlotAt(run.states[k + 1], r, i), events');
  }

  lemma {:induction false} MomentMirrors(s: Slot, actions: seq<Action>, d: nat, ms: nat, events: seq<AggregateEvent>, timely: bool,
                                         s': Slot, events': seq<AggregateEvent>)
    requires ms > 0 && WellFormed(s) && d < U64_MAX && Gathers(s', ms)
    requires s' == Replay(s, actions, d) && events' == events + EventsOf(actions, d)
    requires Gathers(s, ms) ==> Mirrored(s, ms, events, timely)
    ensures Mirrored(s', ms, events', timely && CalledInTime(s, actions, d))
  {
    ReplayMirrors(s, actions, d, ms, events);
  }

  /** One moment of a run, for one slot. */
  lemma {:induction false} SlotStep(run: Run, rules: Rules, k: nat, r: nat, i: nat)
    requires Driven(run, rules) && k < |run.moments|
    ensures var m, a := run.moments[k], SlotAt(run.states[k], r, i);
      m.time < U64_MAX && WellFormed(a) &&
      SlotAt(run.states[k + 1], r, i) == Replay(a, ActionsAt(m.history, r, i), m.time) &&
      SlotEvents(run.moments[..k + 1], r, i) == SlotEvents(run.moments[..k], r, i) + EventsOf(ActionsAt(m.history, r, i), m.time)
  {
    var m := run.moments[k];
    assert Happened(run.states[k], m, run.states[k + 1]);
    ExplainsAt(run.states[k], m.history, run.states[k + 1], m.time, r, i);
    SlotWellFormed(run.states[k], r, i);
    assert run.moments[..k + 1][..k] == run.moments[..k];
  }

  lemma {:induction false} CalledInTimeNext(run: Run, k: nat, r: nat, i: nat)
    requires k < |run.moments| < |run.states|
    ensures CalledInTimeUpTo(run, k + 1, r, i) <==>
      (CalledInTimeUpTo(run, k, r, i) &&
       CalledInTime(SlotAt(run.states[k], r, i), ActionsAt(run.moments[k].history, r, i), run.moments[k].time))
  {
    assert run.moments[k] == run.moments[k];
  }

  lemma {:induction false} SlotWellFormed(rules: Rules, r: nat, i: nat)
    requires AllWellFormed(rules)
    ensures WellFormed(SlotAt(rules, r, i))
  {
    if r < |rules| {
      assert RuleWellFormed(rules[r]);
    }
  }

  lemma {:induction false} EventsAt(actions: seq<Action>, d: nat)
    ensures forall k :: 0 <= k < |EventsOf(actions, d)| ==> EventsOf(actions, d)[k].t == d
  {
    if actions != [] {
      EventsAt(actions[..|actions| - 1], d);
    }
  }

  lemma {:induction false} SlotEventsOrdered(moments: seq<Moment>, r: nat, i: nat)
    requires InTimeOrder(moments)
    ensures AggregateOrdered(SlotEvents(moments, r, i))
    ensures forall k :: 0 <= k < |SlotEvents(moments, r, i)| ==> moments != [] && SlotEvents(moments, r, i)[k].t <= moments[|moments| - 1].time
  {
    if moments != [] {
      var n := |moments| - 1;
      SlotEventsOrdered(moments[..n], r, i);
      EventsAt(ActionsAt(moments[n].history, r, i), moments[n].time);
    }
  }

  /** In a run that catches up before events, only the bodies that ticks fire can call too late. */
  lemma {:induction false} OnlyBodiesLate(run: Run, rules: Rules, r: nat, i: nat)
    requires Driven(run, rules)
    ensures CalledInTimeUpTo(run, |run.moments|, r, i) <==> BodiesWait(run, r, i)
  {
    forall k | 0 <= k < |run.moments| && run.moments[k].event
      ensures CalledInTime(SlotAt(run.states[k], r, i), ActionsAt(run.moments[k].history, r, i), run.moments[k].time)
    {
      var m, a := run.moments[k], run.states[k];
      assert Happened(a, m, run.states[k + 1]);
      SlotWellFormed(a, r, i);
      assert Above(SlotAt(a, r, i), m.time) by {
        if r < |a| { assert RuleAbove(a[r], m.time); }
      }
      EventInTime(SlotAt(a, r, i), ActionsAt(m.history, r, i), m.time);
    }
  }

  /**
   In every run that catches up before each event, and for every aggregate! slot: the bucket computed
   at deadline d is exactly the calls of [d - ms, d), for all of them, if and only if no body that a
   tick fires calls the slot at its deadline before its own turn.
   */
  lemma {:induction false} CatchUpMakesWindows(run: Run, rules: Rules, r: nat, i: nat, ms: nat)
    requires Driven(run, rules) && ms > 0
    requires SlotAt(run.states[0], r, i) == EmptySlot && Gathers(SlotAt(rules, r, i), ms)
    ensures var events := SlotEvents(run.moments, r, i);
      Mirrors(SlotAt(rules, r, i), RunAggregate(ms, events).clock) &&
      (Windowed(ms, RunAggregate(ms, events), Adds(events)) <==> BodiesWait(run, r, i))
  {
    var events := SlotEvents(run.moments, r, i);
    assert run.moments[..|run.moments|] == run.moments;
    RunMirrors(run, |run.moments|, rules, r, i, ms);
    assert MirroredAt(run, |run.moments|, r, i, ms);
    OnlyBodiesLate(run, rules, r, i);
    SlotEventsOrdered(run.moments, r, i);
    AggregateWindows(ms, events);
  }

  // ----- every slot in a whole run -----

  /** One action, and when. */
  datatype Deed = Deed(t: nat, a: Action)

  /** A slot after these, in order. */
  function Lived(deeds: seq<Deed>): Slot {
    if deeds == [] then EmptySlot else Act(Lived(deeds[..|deeds| - 1]), deeds[|deeds| - 1].a, deeds[|deeds| - 1].t)
  }

  function DeedsOf(actions: seq<Action>, d: nat): (ds: seq<Deed>)
    ensures |ds| == |actions|
  {
    seq(|actions|, k requires 0 <= k < |actions| => Deed(d, actions[k]))
  }

  /** What slot `i` of rule `r` went through. */
  function DeedsAt(moments: seq<Moment>, r: nat, i: nat): seq<Deed> {
    if moments == [] then []
    else
      var n := |moments| - 1;
      DeedsAt(moments[..n], r, i) + DeedsOf(ActionsAt(moments[n].history, r, i), moments[n].time)
  }

  lemma {:induction false} LivedOn(deeds: seq<Deed>, actions: seq<Action>, d: nat)
    ensures Lived(deeds + DeedsOf(actions, d)) == Replay(Lived(deeds), actions, d)
    decreases |actions|
  {
    if actions == [] {
      assert deeds + DeedsOf([], d) == deeds;
    } else {
      var n := |actions| - 1;
      LivedOn(deeds, actions[..n], d);
      DeedsSnoc(deeds, actions, d);
      LivedNext(deeds + DeedsOf(actions[..n], d), actions[n], d);
    }
  }

  lemma {:induction false} DeedsSnoc(deeds: seq<Deed>, actions: seq<Action>, d: nat)
    requires actions != []
    ensures var n := |actions| - 1;
      deeds + DeedsOf(actions, d) == (deeds + DeedsOf(actions[..n], d)) + [Deed(d, actions[n])]
  {
  }

  lemma {:induction false} LivedNext(deeds: seq<Deed>, a: Action, d: nat)
    ensures Lived(deeds + [Deed(d, a)]) == Act(Lived(deeds), a, d)
  {
    assert (deeds + [Deed(d, a)])[..|deeds|] == deeds;
  }

  /** The slot of a program is what its own deeds make of an empty one. */
  lemma {:induction false} SlotLived(run: Run, n: nat, rules: Rules, r: nat, i: nat)
    requires Driven(run, rules) && n <= |run.moments| && SlotAt(run.states[0], r, i) == EmptySlot
    ensures SlotAt(run.states[n], r, i) == Lived(DeedsAt(run.moments[..n], r, i))
  {
    if n > 0 {
      var m := run.moments[n - 1];
      SlotLived(run, n - 1, rules, r, i);
      SlotStep(run, rules, n - 1, r, i);
      assert run.moments[..n][..n - 1] == run.moments[..n - 1];
      LivedOn(DeedsAt(run.moments[..n - 1], r, i), ActionsAt(m.history, r, i), m.time);
    }
  }

  /** The slot has one call site, so that its form and parameters do not change. */
  predicate Only(deeds: seq<Deed>, site: Form -> bool) {
    forall k :: 0 <= k < |deeds| && deeds[k].a.Called? ==> site(deeds[k].a.form)
  }

  predicate Uncalled(deeds: seq<Deed>) {
    forall k :: 0 <= k < |deeds| ==> deeds[k].a == Ticked
  }

  lemma {:induction false} DeedsLast(deeds: seq<Deed>)
    requires deeds != []
    ensures var before, last := deeds[..|deeds| - 1], deeds[|deeds| - 1];
      (Uncalled(deeds) <==> Uncalled(before) && last.a == Ticked) && Lived(deeds) == Act(Lived(before), last.a, last.t)
  {
  }

  /** A slot that its first call creates. */
  function Once(called: bool, s: Slot): Slot {
    if called then s else EmptySlot
  }

  /** One of the moving windows. */
  function WindowSite(window: nat): Form -> bool {
    (form: Form) => form.WindowForm? && form.window == window
  }

  function BarSite(width: nat): Form -> bool {
    (form: Form) => form.BarForm? && form.width == width
  }

  /** Samples and ticks of a window or of a bar. */
  function SampleEvents(deeds: seq<Deed>): seq<Event> {
    if deeds == [] then []
    else
      var d := deeds[|deeds| - 1];
      SampleEvents(deeds[..|deeds| - 1]) +
      match d.a
      case Ticked => [Tick(d.t)]
      case Called(WindowForm(_, x)) => [Push(d.t, x)]
      case Called(BarForm(_, x)) => [Push(d.t, x)]
      case _ => []
  }

  /** What a tick, or a call at its site, does to the samples of a window. */
  function WindowStep(window: nat, w: seq<Sample>, a: Action, d: nat): seq<Sample>
    requires a.Called? ==> a.form.WindowForm?
  {
    match a case Ticked => Evict(w, Cutoff(d, window)) case Called(form) => PushTime(w, window, d, form.x)
  }

  lemma {:induction false} WindowOpens(window: nat, a: Action, d: nat)
    requires window > 0 && (a.Called? ==> WindowSite(window)(a.form))
    ensures Act(EmptySlot, a, d) == Once(a != Ticked, RingSlot(window, WindowStep(window, [], a, d)))
    ensures a == Ticked ==> WindowStep(window, [], a, d) == []
  {
    NothingToEvict(Cutoff(d, window));
    if a.Called? {
      assert [] + [Sample(d, a.form.x)] == [Sample(d, a.form.x)];
    }
  }

  lemma {:induction false} NothingToEvict(cutoff: nat)
    ensures Evict([], cutoff) == []
  {
  }

  lemma {:induction false} WindowActs(window: nat, w: seq<Sample>, a: Action, d: nat)
    requires window > 0 && (a.Called? ==> WindowSite(window)(a.form))
    ensures Act(RingSlot(window, w), a, d) == RingSlot(window, WindowStep(window, w, a, d))
  {
  }

  lemma {:induction false} WindowNext(window: nat, deeds: seq<Deed>)
    requires deeds != [] && (deeds[|deeds| - 1].a.Called? ==> deeds[|deeds| - 1].a.form.WindowForm?)
    ensures var before, last := deeds[..|deeds| - 1], deeds[|deeds| - 1];
      RunWindow(window, SampleEvents(deeds)) == WindowStep(window, RunWindow(window, SampleEvents(before)), last.a, last.t)
  {
    SampleEventsNext(deeds);
  }

  /** A window slot holds what `WindowIsRecent` is about. */
  lemma {:induction false} WindowLives(window: nat, deeds: seq<Deed>)
    requires window > 0 && Only(deeds, WindowSite(window))
    ensures var w := RunWindow(window, SampleEvents(deeds));
      Lived(deeds) == Once(!Uncalled(deeds), RingSlot(window, w)) && (Uncalled(deeds) ==> w == [])
  {
    if deeds != [] {
      var before, last := deeds[..|deeds| - 1], deeds[|deeds| - 1];
      WindowLives(window, before);
      DeedsLast(deeds);
      WindowNext(window, deeds);
      if Uncalled(before) {
        WindowOpens(window, last.a, last.t);
      } else {
        WindowActs(window, RunWindow(window, SampleEvents(before)), last.a, last.t);
      }
    }
  }

  lemma {:induction false} SampleEventsNext(deeds: seq<Deed>)
    requires deeds != [] && (deeds[|deeds| - 1].a == Ticked || deeds[|deeds| - 1].a.form.WindowForm? || deeds[|deeds| - 1].a.form.BarForm?)
    ensures var es := SampleEvents(deeds);
      es != [] && es[..|es| - 1] == SampleEvents(deeds[..|deeds| - 1]) &&
      es[|es| - 1] == if deeds[|deeds| - 1].a == Ticked then Tick(deeds[|deeds| - 1].t) else Push(deeds[|deeds| - 1].t, deeds[|deeds| - 1].a.form.x)
  {
  }

  function BarStep(width: nat, bar: Bars.Bar, a: Action, d: nat): Bars.Bar
    requires width > 0 && (a.Called? ==> a.form.BarForm?)
  {
    match a case Ticked => Bars.TimeTick(bar, width, d).0 case Called(form) => Bars.TimeUpdate(bar, width, d, form.x).0
  }

  lemma {:induction false} BarActs(width: nat, called: bool, bar: Bars.Bar, a: Action, d: nat)
    requires width > 0 && (called || bar == Bars.NO_BAR) && (a.Called? ==> BarSite(width)(a.form))
    ensures Act(Once(called, BarSlot(width, bar)), a, d) == Once(called || a != Ticked, BarSlot(width, BarStep(width, bar, a, d)))
    ensures called || a != Ticked || BarStep(width, bar, a, d) == Bars.NO_BAR
  {
  }

  lemma {:induction false} BarNext(width: nat, deeds: seq<Deed>)
    requires width > 0 && deeds != [] && (deeds[|deeds| - 1].a.Called? ==> deeds[|deeds| - 1].a.form.BarForm?)
    ensures var before, last := deeds[..|deeds| - 1], deeds[|deeds| - 1];
      Bars.RunTimeBars(width, SampleEvents(deeds)).bar == BarStep(width, Bars.RunTimeBars(width, SampleEvents(before)).bar, last.a, last.t)
  {
    SampleEventsNext(deeds);
  }

  /** A bar slot holds the open bar that `BarsIgnoreTicks` is about. */
  lemma {:induction false} BarLives(width: nat, deeds: seq<Deed>)
    requires width > 0 && Only(deeds, BarSite(width))
    ensures var bar := Bars.RunTimeBars(width, SampleEvents(deeds)).bar;
      Lived(deeds) == Once(!Uncalled(deeds), BarSlot(width, bar)) && (Uncalled(deeds) ==> bar == Bars.NO_BAR)
  {
    if deeds != [] {
      var before, last := deeds[..|deeds| - 1], deeds[|deeds| - 1];
      BarLives(width, before);
      DeedsLast(deeds);
      BarNext(width, deeds);
      BarActs(width, !Uncalled(before), Bars.RunTimeBars(width, SampleEvents(before)).bar, last.a, last.t);
    }
  }

  function ThrottleSite(window: nat, max: nat): Form -> bool {
    (form: Form) => form == ThrottleForm(window, max)
  }

  function ThrottleEvents(deeds: seq<Deed>): (es: seq<Throttle.Event>)
    ensures |es| == |deeds|
  {
    seq(|deeds|, k requires 0 <= k < |deeds| => if deeds[k].a == Ticked then Throttle.Tick(deeds[k].t) else Throttle.Call(deeds[k].t))
  }

  function ThrottleStep(window: nat, max: nat, w: seq<Sample>, a: Action, d: nat): seq<Sample> {
    if a == Ticked then Evict(w, Cutoff(d, window)) else Throttle.TimeStep(w, window, max, d).1
  }

  lemma {:induction false} ThrottleOpens(window: nat, max: nat, a: Action, d: nat)
    requires window > 0 && max > 0 && (a.Called? ==> ThrottleSite(window, max)(a.form))
    ensures Act(EmptySlot, a, d) == Once(a != Ticked, RingSlot(window, ThrottleStep(window, max, [], a, d)))
    ensures a == Ticked ==> ThrottleStep(window, max, [], a, d) == []
  {
    NothingToEvict(Cutoff(d, window));
    if a.Called? {
      FirstPass(window, max, d);
    }
  }

  lemma {:induction false} FirstPass(window: nat, max: nat, d: nat)
    requires max > 0
    ensures Throttle.TimeStep([], window, max, d).1 == [Sample(d, 1.0)]
  {
    NothingToEvict(Cutoff(d, window));
    assert [] + [Sample(d, 1.0)] == [Sample(d, 1.0)];
  }

  lemma {:induction false} ThrottleActs(window: nat, max: nat, w: seq<Sample>, a: Action, d: nat)
    requires window > 0 && max > 0 && (a.Called? ==> ThrottleSite(window, max)(a.form))
    ensures Act(RingSlot(window, w), a, d) == RingSlot(window, ThrottleStep(window, max, w, a, d))
  {
  }

  lemma {:induction false} ThrottleNext(window: nat, max: nat, deeds: seq<Deed>)
    requires deeds != []
    ensures var before, last := deeds[..|deeds| - 1], deeds[|deeds| - 1];
      Throttle.RunTime(window, max, ThrottleEvents(deeds)).ring ==
      ThrottleStep(window, max, Throttle.RunTime(window, max, ThrottleEvents(before)).ring, last.a, last.t)
  {
    assert ThrottleEvents(deeds)[..|deeds| - 1] == ThrottleEvents(deeds[..|deeds| - 1]);
  }

  /** A throttle slot holds the passes that `TimeBound` is about. */
  lemma {:induction false} ThrottleLives(window: nat, max: nat, deeds: seq<Deed>)
    requires window > 0 && max > 0 && Only(deeds, ThrottleSite(window, max))
    ensures var w := Throttle.RunTime(window, max, ThrottleEvents(deeds)).ring;
      Lived(deeds) == Once(!Uncalled(deeds), RingSlot(window, w)) && (Uncalled(deeds) ==> w == [])
  {
    if deeds != [] {
      var before, last := deeds[..|deeds| - 1], deeds[|deeds| - 1];
      ThrottleLives(window, max, before);
      DeedsLast(deeds);
      ThrottleNext(window, max, deeds);
      if Uncalled(before) {
        ThrottleOpens(window, max, last.a, last.t);
      } else {
        ThrottleActs(window, max, Throttle.RunTime(window, max, ThrottleEvents(before)).ring, last.a, last.t);
      }
    }
  }

  /** debounce!, sample! or on-silence. */
  function RetainSite(kind: ClockKind, ms: nat): Form -> bool {
    (form: Form) =>
      if kind == OnSilence then form.SilenceForm? && form.ms == ms else form.RetainForm? && form.kind == kind && form.ms == ms
  }

  function RetainEventOf(d: Deed): RetainEvent {
    match d.a
    case Called(RetainForm(_, _, subject, payload)) => RetainCall(d.t, subject, payload)
    case Called(SilenceForm(_, payload)) => RetainCall(d.t, [], payload)
    case _ => RetainTick(d.t)
  }

  function RetainEvents(deeds: seq<Deed>): (es: seq<RetainEvent>)
    ensures |es| == |deeds|
  {
    seq(|deeds|, k requires 0 <= k < |deeds| => RetainEventOf(deeds[k]))
  }

  lemma {:induction false} RetainActs(kind: ClockKind, ms: nat, called: bool, run: RetainRun, a: Action, d: nat)
    requires ms > 0 && Retaining(kind) && RetainState(kind, ms, run) && (called <==> run.clock.live)
    requires a.Called? ==> RetainSite(kind, ms)(a.form)
    ensures var c := RetainStep(kind, ms, run, RetainEventOf(Deed(d, a))).clock;
      Act(Once(called, ClockSlot(run.clock)), a, d) == Once(called || a != Ticked, ClockSlot(c)) && (called || a != Ticked <==> c.live)
  {
  }

  /** A debounce!, sample! or on-silence slot holds the clock that `RetainEmitsLatest` is about. */
  lemma {:induction false} RetainLives(kind: ClockKind, ms: nat, deeds: seq<Deed>)
    requires ms > 0 && Retaining(kind) && Only(deeds, RetainSite(kind, ms))
    ensures var c := RunRetain(kind, ms, RetainEvents(deeds)).clock;
      Lived(deeds) == Once(!Uncalled(deeds), ClockSlot(c)) && (!Uncalled(deeds) <==> c.live)
  {
    if deeds != [] {
      var before, last := deeds[..|deeds| - 1], deeds[|deeds| - 1];
      RetainLives(kind, ms, before);
      DeedsLast(deeds);
      assert RetainEvents(deeds)[..|before|] == RetainEvents(before);
      RetainActs(kind, ms, !Uncalled(before), RunRetain(kind, ms, RetainEvents(before)), last.a, last.t);
    }
  }

  function DropoutSite(ms: nat): Form -> bool {
    (form: Form) => form == DropoutForm(ms)
  }

  function DropoutEvents(deeds: seq<Deed>): (es: seq<DropoutEvent>)
    ensures |es| == |deeds|
  {
    seq(|deeds|, k requires 0 <= k < |deeds| => if deeds[k].a == Ticked then DropoutTick(deeds[k].t) else HeardAt(deeds[k].t))
  }

  lemma {:induction false} DropoutActs(ms: nat, called: bool, c: Clock, a: Action, d: nat)
    requires ms > 0 && (if called then c.live && c.kind == Dropout && c.interval == ms else c == FRESH)
    requires a.Called? ==> DropoutSite(ms)(a.form)
    ensures var c' := if a == Ticked then TickClock(c, d).0 else Heard(c, ms, d).0;
      Act(Once(called, ClockSlot(c)), a, d) == Once(called || a != Ticked, ClockSlot(c')) && (called || a != Ticked <==> c'.live)
  {
  }

  /** A dropout slot holds the clock that `DropoutAlternates` is about. */
  lemma {:induction false} DropoutLives(ms: nat, deeds: seq<Deed>)
    requires ms > 0 && Only(deeds, DropoutSite(ms))
    ensures var c := RunDropout(ms, DropoutEvents(deeds)).clock;
      Lived(deeds) == Once(!Uncalled(deeds), ClockSlot(c)) && (!Uncalled(deeds) <==> c.live)
  {
    if deeds != [] {
      var before, last := deeds[..|deeds| - 1], deeds[|deeds| - 1];
      DropoutLives(ms, before);
      DeedsLast(deeds);
      assert DropoutEvents(deeds)[..|before|] == DropoutEvents(before);
      DropoutActs(ms, !Uncalled(before), RunDropout(ms, DropoutEvents(before)).clock, last.a, last.t);
    }
  }

  /**
   Rule 0 is a debounce! and rule 1 an aggregate!, both called at time 0 with the same interval. The
   tick at `ms` fires rule 0 first, which publishes what rule 1 aggregates.
   */
  function EarlyBodyRun(ms: nat): Run {
    var gather := Called(AggregateForm(ms, Avg, [GT], 0.0));
    var debounce := Called(RetainForm(Debounce, ms, [GT], []));
    var a, b := Act(EmptySlot, debounce, 0), Act(EmptySlot, gather, 0);
    Run([[[], []], [[a], [b]], [[Act(a, Ticked, ms)], [Act(Act(b, gather, ms), Ticked, ms)]]],
        [Moment(0, true, [[[debounce]], [[gather]]]), Moment(ms, false, [[[Ticked]], [[gather, Ticked]]])])
  }

  lemma {:induction false} ReplayFew(s: Slot, a: Action, b: Action, d: nat)
    ensures Replay(s, [a], d) == Act(s, a, d) && Replay(s, [a, b], d) == Act(Act(s, a, d), b, d)
    ensures TickCount([a]) == (if a == Ticked then 1 else 0)
    ensures TickCount([a, b]) == (if a == Ticked then 1 else 0) + (if b == Ticked then 1 else 0)
  {
    ReplaySnoc(s, [], a, d);
    ReplaySnoc(s, [a], b, d);
    assert [] + [a] == [a] && [a] + [b] == [a, b];
  }

  /** What the slots of that run are to the scheduler. */
  lemma {:induction false} EarlyBodySlots(ms: nat)
    requires 0 < ms < U64_MAX
    ensures var states := EarlyBodyRun(ms).states;
      var a, b, a', b' := states[1][0][0], states[1][1][0], states[2][0][0], states[2][1][0];
      WellFormed(a) && Deadline(a) == Some(ms) && WellFormed(b) && Deadline(b) == Some(ms) && Gathers(b, ms) &&
      Deadline(a') == None && Deadline(b') == Some(ms + ms) && Gathers(b', ms)
  {
  }

  /** A moment of a program of two rules that have one slot each, or none yet. */
  lemma {:induction false} PairExplained(a: Rules, x: seq<Action>, y: seq<Action>, d: nat)
    requires a == [[], []] || (|a| == 2 && |a[0]| == 1 && |a[1]| == 1)
    ensures Explains(a, [[x], [y]], [[Replay(SlotAt(a, 0, 0), x, d)], [Replay(SlotAt(a, 1, 0), y, d)]], d)
  {
  }

  lemma {:induction false} FirstCall(x: Action)
    requires x != Ticked
    ensures RuleSameTicks([], [[x]])
  {
    ReplayFew(EmptySlot, x, x, 0);
  }

  lemma {:induction false} FirstCalls(x: Action, y: Action)
    requires x != Ticked && y != Ticked
    ensures var none: Rules := [[], []];
      AllWellFormed(none) && AllAbove(none, 0) && SameTicks(NoHistory(none), [[[x]], [[y]]])
  {
    var none: Rules := [[], []];
    FirstCall(x);
    FirstCall(y);
    assert NoHistory(none) == [[], []] by { assert NoHistory(none)[0] == [] && NoHistory(none)[1] == []; }
  }

  lemma {:induction false} EarlyBodyCalls(ms: nat)
    requires 0 < ms < U64_MAX
    ensures var run := EarlyBodyRun(ms); Happened(run.states[0], run.moments[0], run.states[1])
  {
    var m := EarlyBodyRun(ms).moments[0];
    var x, y := m.history[0][0][0], m.history[1][0][0];
    ReplayFew(EmptySlot, x, x, 0);
    ReplayFew(EmptySlot, y, y, 0);
    PairExplained([[], []], [x], [y], 0);
    assert x != Ticked && y != Ticked;
    FirstCalls(x, y);
  }

  lemma {:induction false} EarlyBodyTicks(ms: nat)
    requires 0 < ms < U64_MAX
    ensures var run := EarlyBodyRun(ms); Happened(run.states[1], run.moments[1], run.states[2])
  {
    var run := EarlyBodyRun(ms);
    EarlyBodySlots(ms);
    var a, b, gather := run.states[1][0][0], run.states[1][1][0], run.moments[1].history[1][0][0];
    ReplayFew(a, Ticked, Ticked, ms);
    ReplayFew(b, gather, Ticked, ms);
    PairExplained(run.states[1], [Ticked], [gather, Ticked], ms);
  }

  lemma {:induction false} EarlyBodyDriven(ms: nat)
    requires 0 < ms < U64_MAX
    ensures var run := EarlyBodyRun(ms); Driven(run, run.states[2])
  {
    var run := EarlyBodyRun(ms);
    EarlyBodyCalls(ms);
    EarlyBodyTicks(ms);
    EarlyBodySlots(ms);
    assert AllAbove(run.states[2], ms);
    AboveEarlier(run.states[2], 0, ms);
  }

  lemma {:induction false} EarlyBodyLate(ms: nat)
    requires 0 < ms < U64_MAX
    ensures !BodiesWait(EarlyBodyRun(ms), 1, 0)
  {
    var run := EarlyBodyRun(ms);
    EarlyBodySlots(ms);
    var b, gather := run.states[1][1][0], Called(AggregateForm(ms, Avg, [GT], 0.0));
    assert !CalledInTime(b, [gather, Ticked], ms) by {
      assert [gather, Ticked][..1] == [gather] && [gather][..0] == [];
      assert !Above(Replay(b, [], ms), ms);
    }
    assert run.moments[1].history[1][0] == [gather, Ticked];
  }

  /** A run, caught up before its event, in which a bucket is not its window: it has a call from its own deadline. */
  lemma {:induction false} EarlyBodyExample(ms: nat)
    requires 0 < ms < U64_MAX
    ensures var run := EarlyBodyRun(ms);
      var events := SlotEvents(run.moments, 1, 0);
      Driven(run, run.states[2]) && !BodiesWait(run, 1, 0) && !Windowed(ms, RunAggregate(ms, events), Adds(events))
  {
    var run := EarlyBodyRun(ms);
    EarlyBodyDriven(ms);
    EarlyBodyLate(ms);
    EarlyBodySlots(ms);
    CatchUpMakesWindows(run, run.states[2], 1, 0, ms);
  }
}
