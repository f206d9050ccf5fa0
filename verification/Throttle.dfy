/** The throttle form (`call_throttle`, `src/patchbay/pb_form_windows.c`), in both of its modes. */
module Throttle {
  import opened Windows

  // ----- time mode: at most `max` passes in any closed interval of `ms` -----

  function TimeStep(w: seq<Sample>, ms: nat, max: nat, now: nat): (bool, seq<Sample>) {
    var e := Evict(w, Cutoff(now, ms));
    if |e| >= max then (false, e) else (true, e + [Sample(now, 1.0)])
  }

  /** `call_throttle` in time mode; a call evicts by its own argument, a tick by the slot's window. */
  method CallTime(ring: Ring, ms: nat, max: nat, now: nat) returns (pass: bool)
    requires ring.Valid() && ring.timed
    modifies ring`values, ring`times, ring`start, ring`len, ring`sum, ring.values, ring.times
    ensures ring.Valid() && (pass, ring.Samples()) == TimeStep(old(ring.Samples()), ms, max, now)
  {
    ghost var kept := Evict(ring.Samples(), Cutoff(now, ms));
    ring.EvictTime(if now > ms then now - ms else 0);
    assert ring.Samples() == kept && |kept| == ring.len;
    if ring.len >= max {
      return false;
    }
    ring.Append(1.0, now);
    pass := true;
  }

  /** A call of the form, or a tick of its slot. */
  datatype Event = Call(t: nat) | Tick(t: nat)

  predicate Ordered(events: seq<Event>) {
    forall i, j :: 0 <= i < j < |events| ==> events[i].t <= events[j].t
  }

  datatype TimeState = TimeState(ring: seq<Sample>, passes: seq<nat>)

  function RunTime(ms: nat, max: nat, events: seq<Event>): TimeState {
    if events == [] then TimeState([], [])
    else
      var st, e := RunTime(ms, max, events[..|events| - 1]), events[|events| - 1];
      match e
      case Tick(t) => st.(ring := Evict(st.ring, Cutoff(t, ms)))
      case Call(t) =>
        var (pass, ring) := TimeStep(st.ring, ms, max, t);
        TimeState(ring, if pass then st.passes + [t] else st.passes)
  }

  /** Sorted, and the pass `max` positions later comes more than `ms` later. */
  predicate Spaced(passes: seq<nat>, ms: nat, max: nat) {
    (forall i, j :: 0 <= i < j < |passes| ==> passes[i] <= passes[j]) &&
    (forall i :: 0 <= i < |passes| - max ==> passes[i] + ms < passes[i + max])
  }

  function Times(w: seq<Sample>): (ts: seq<nat>)
    ensures |ts| == |w|
  {
    seq(|w|, i requires 0 <= i < |w| => w[i].t)
  }

  /** The ring holds the passes from number `d` on; the earlier ones are more than `ms` old. */
  predicate Tracks(ring: seq<Sample>, passes: seq<nat>, ms: nat, now: nat) {
    var d := |passes| - |ring|;
    d >= 0 && Times(ring) == passes[d..] &&
    (forall i :: 0 <= i < d ==> passes[i] + ms < now) &&
    (forall i :: 0 <= i < |passes| ==> passes[i] <= now)
  }

  lemma {:induction false} TracksEvict(ring: seq<Sample>, passes: seq<nat>, ms: nat, before: nat, now: nat)
    requires Tracks(ring, passes, ms, before) && before <= now
    ensures Tracks(Evict(ring, Cutoff(now, ms)), passes, ms, now)
  {
    var e := Evict(ring, Cutoff(now, ms));
    var k, d := |ring| - |e|, |passes| - |ring|;
    assert Times(e) == Times(ring)[k..] == passes[d..][k..] == passes[d + k..];
    forall i | 0 <= i < d + k
      ensures passes[i] + ms < now
    {
      if i >= d { assert Times(ring)[i - d] == passes[d..][i - d] == passes[i]; }
    }
  }

  /** A pass when fewer than `max` recent ones are in the ring keeps the spacing. */
  lemma {:induction false} SpacedPass(ring: seq<Sample>, passes: seq<nat>, ms: nat, max: nat, now: nat)
    requires Tracks(ring, passes, ms, now) && Spaced(passes, ms, max) && |ring| < max
    ensures Tracks(ring + [Sample(now, 1.0)], passes + [now], ms, now) && Spaced(passes + [now], ms, max)
  {
    var d := |passes| - |ring|;
    assert Times(ring + [Sample(now, 1.0)]) == Times(ring) + [now] == (passes + [now])[d..];
    assert |passes| >= max ==> passes[|passes| - max] + ms < now;
  }

  lemma {:induction false} RunTimeInvariant(ms: nat, max: nat, events: seq<Event>)
    requires Ordered(events) && max >= 1
    ensures var st := RunTime(ms, max, events);
      Tracks(st.ring, st.passes, ms, if events == [] then 0 else events[|events| - 1].t) && Spaced(st.passes, ms, max)
  {
    if events != [] {
      var n := |events| - 1;
      var before, now := events[..n], events[n].t;
      RunTimeInvariant(ms, max, before);
      var st := RunTime(ms, max, before);
      TracksEvict(st.ring, st.passes, ms, if before == [] then 0 else before[n - 1].t, now);
      var e := Evict(st.ring, Cutoff(now, ms));
      if events[n].Call? && |e| < max {
        SpacedPass(e, st.passes, ms, max, now);
      }
    }
  }

  function CountIn(passes: seq<nat>, lo: nat, hi: nat): (n: nat)
    ensures n <= |passes|
  {
    if passes == [] then 0
    else (if lo <= passes[0] <= hi then 1 else 0) + CountIn(passes[1..], lo, hi)
  }

  lemma {:induction false} CountInSpaced(passes: seq<nat>, ms: nat, max: nat, lo: nat)
    requires Spaced(passes, ms, max) && max >= 1
    ensures CountIn(passes, lo, lo + ms) <= max
  {
    if passes != [] {
      assert Spaced(passes[1..], ms, max) by {
        forall i | 0 <= i < |passes[1..]| - max
          ensures passes[1..][i] + ms < passes[1..][i + max]
        {
          assert passes[i + 1] + ms < passes[i + 1 + max];
        }
      }
      CountInSpaced(passes[1..], ms, max, lo);
      if lo <= passes[0] && |passes| > max {
        assert passes[0] + ms < passes[0 + max];
        CountInPrefix(passes, lo, lo + ms, max);
      }
    }
  }

  /** Passes after position `n` that are all above `hi` do not count. */
  lemma {:induction false} CountInPrefix(passes: seq<nat>, lo: nat, hi: nat, n: nat)
    requires n <= |passes|
    requires forall i :: n <= i < |passes| ==> passes[i] > hi
    ensures CountIn(passes, lo, hi) <= n
  {
    if passes != [] {
      CountInPrefix(passes[1..], lo, hi, if n == 0 then 0 else n - 1);
    }
  }

  /** Throttle bound, time mode: over every run, any closed interval of length `ms` contains at most `max` passes. */
  lemma {:induction false} TimeBound(ms: nat, max: nat, events: seq<Event>, lo: nat)
    requires Ordered(events) && max >= 1
    ensures CountIn(RunTime(ms, max, events).passes, lo, lo + ms) <= max
  {
    RunTimeInvariant(ms, max, events);
    CountInSpaced(RunTime(ms, max, events).passes, ms, max, lo);
  }

  lemma {:induction false} CountFrom(passes: seq<nat>, d: nat, lo: nat, hi: nat)
    requires d <= |passes| && (forall i :: 0 <= i < d ==> passes[i] < lo) && forall i :: d <= i < |passes| ==> lo <= passes[i] <= hi
    ensures CountIn(passes, lo, hi) == |passes| - d
  {
    if passes != [] {
      CountFrom(passes[1..], if d == 0 then 0 else d - 1, lo, hi);
    }
  }

  /** In every run a call passes exactly when fewer than `max` passes lie in the last `ms` before it. */
  lemma {:induction false} TimePasses(ms: nat, max: nat, events: seq<Event>, t: nat)
    requires Ordered(events + [Call(t)]) && max >= 1
    ensures var before := RunTime(ms, max, events).passes;
      RunTime(ms, max, events + [Call(t)]).passes ==
      if CountIn(before, if t > ms then t - ms else 0, t) < max then before + [t] else before
  {
    var st, now := RunTime(ms, max, events), if events == [] then 0 else events[|events| - 1].t;
    OrderedBefore(events, t);
    RunTimeInvariant(ms, max, events);
    RunTimeCall(ms, max, events, t);
    TracksEvict(st.ring, st.passes, ms, now, t);
    RecentCount(Evict(st.ring, Cutoff(t, ms)), st.passes, ms, max, t);
  }

  lemma {:induction false} OrderedBefore(events: seq<Event>, t: nat)
    requires Ordered(events + [Call(t)])
    ensures Ordered(events) && (events != [] ==> events[|events| - 1].t <= t)
  {
    var all := events + [Call(t)];
    assert forall i :: 0 <= i < |events| ==> all[i] == events[i];
    assert events != [] ==> all[|events| - 1].t <= all[|events|].t;
  }

  lemma {:induction false} RunTimeCall(ms: nat, max: nat, events: seq<Event>, t: nat)
    ensures var st := RunTime(ms, max, events);
      RunTime(ms, max, events + [Call(t)]).passes == if |Evict(st.ring, Cutoff(t, ms))| < max then st.passes + [t] else st.passes
  {
    assert (events + [Call(t)])[..|events|] == events;
  }

  lemma {:induction false} RecentCount(ring: seq<Sample>, passes: seq<nat>, ms: nat, max: nat, t: nat)
    requires Tracks(ring, passes, ms, t) && Spaced(passes, ms, max) && (ring != [] ==> ring[0].t >= Cutoff(t, ms))
    ensures CountIn(passes, Cutoff(t, ms), t) == |ring|
  {
    var d := |passes| - |ring|;
    forall i | d <= i < |passes|
      ensures Cutoff(t, ms) <= passes[i]
    {
      assert passes[d] == passes[d..][0] == Times(ring)[0] == ring[0].t;
    }
    CountFrom(passes, d, Cutoff(t, ms), t);
  }

  // ----- count mode: at most `max` passes in any `count` consecutive calls -----

  function PushBounded(w: seq<real>, count: nat, x: real): seq<real> {
    (if |w| < count || w == [] then w else w[1..]) + [x]
  }

  function Verdict(w: seq<real>, max: nat): real {
    if Sum(w) < max as real then 1.0 else 0.0
  }

  method CallCount(ring: Ring, max: nat) returns (pass: bool)
    requires ring.Valid() && !ring.timed && ring.values.Length > 0
    modifies ring`start, ring`len, ring`sum, ring.values
    ensures ring.Valid()
    ensures pass <==> Verdict(old(ring.Values()), max) == 1.0
    ensures ring.Values() == PushBounded(old(ring.Values()), ring.values.Length, Verdict(old(ring.Values()), max))
  {
    pass := ring.sum < max as real;
    ring.PushCount(if pass then 1.0 else 0.0);
  }

  datatype CountState = CountState(ring: seq<real>, verdicts: seq<real>)

  /** The ring and the verdicts, 1 for a pass, after `n` calls; the form has no other input. */
  function RunCount(count: nat, max: nat, n: nat): (st: CountState)
    ensures |st.verdicts| == n
  {
    if n == 0 then CountState([], [])
    else
      var st := RunCount(count, max, n - 1);
      var x := Verdict(st.ring, max);
      CountState(PushBounded(st.ring, count, x), st.verdicts + [x])
  }

  /** The last `count` verdicts. */
  function Recent(v: seq<real>, count: nat): seq<real> {
    if |v| <= count then v else v[|v| - count..]
  }

  /** What the ring holds. */
  lemma {:induction false} RingIsRecent(count: nat, max: nat, n: nat)
    requires count >= 1
    ensures RunCount(count, max, n).ring == Recent(RunCount(count, max, n).verdicts, count)
  {
    if n > 0 {
      RingIsRecent(count, max, n - 1);
    }
  }

  predicate Bits(v: seq<real>) {
    forall i :: 0 <= i < |v| ==> v[i] == 0.0 || v[i] == 1.0
  }

  function Passes(v: seq<real>): nat {
    if v == [] then 0 else (if v[0] == 1.0 then 1 else 0) + Passes(v[1..])
  }

  lemma {:induction false} SumIsPasses(v: seq<real>)
    requires Bits(v)
    ensures Sum(v) == Passes(v) as real
  {
    if v != [] {
      SumIsPasses(v[1..]);
    }
  }

  lemma {:induction false} PassesAppend(a: seq<real>, b: seq<real>)
    ensures Passes(a + b) == Passes(a) + Passes(b)
  {
    if a == [] {
      assert a + b == b;
    } else {
      assert (a + b)[1..] == a[1..] + b;
      PassesAppend(a[1..], b);
    }
  }

  lemma {:induction false} VerdictsAreBits(count: nat, max: nat, n: nat)
    ensures Bits(RunCount(count, max, n).verdicts)
  {
    if n > 0 {
      VerdictsAreBits(count, max, n - 1);
    }
  }

  /** One more call after `w`, of which the last `k < count` calls are counted together with it. */
  lemma {:induction false} BoundStep(w: seq<real>, count: nat, max: nat, k: nat)
    requires Bits(w) && k <= |w| && k < count
    requires Passes(w[|w| - k..]) <= max
    ensures Passes(w[|w| - k..] + [Verdict(Recent(w, count), max)]) <= max
  {
    var recent, x := Recent(w, count), Verdict(Recent(w, count), max);
    var skip := |recent| - k;
    assert recent == recent[..skip] + recent[skip..];
    assert recent[skip..] == w[|w| - k..];
    PassesAppend(recent[..skip], recent[skip..]);
    SumIsPasses(recent);
    PassesAppend(w[|w| - k..], [x]);
    assert Passes([x]) == if x == 1.0 then 1 else 0 by { assert [x][1..] == []; }
  }

  /** No `count` consecutive calls, or fewer, contain more than `max` passes. */
  ghost predicate Limited(v: seq<real>, count: nat, max: nat) {
    forall i, j :: 0 <= i <= j <= |v| && j - i <= count ==> Passes(v[i..j]) <= max
  }

  lemma {:induction false} LimitedSnoc(w: seq<real>, count: nat, max: nat, i: nat, j: nat)
    requires Bits(w) && Limited(w, count, max) && i <= j <= |w| + 1 && j - i <= count
    ensures Passes((w + [Verdict(Recent(w, count), max)])[i..j]) <= max
  {
    var x := Verdict(Recent(w, count), max);
    if j <= |w| {
      assert (w + [x])[i..j] == w[i..j];
    } else if i == j {
      assert (w + [x])[i..j] == [];
    } else {
      assert w[i..|w|] == w[|w| - (|w| - i)..];
      BoundStep(w, count, max, |w| - i);
      assert (w + [x])[i..j] == w[|w| - (|w| - i)..] + [x];
    }
  }

  /** Throttle bound, count mode. */
  lemma {:induction false} CountBound(count: nat, max: nat, n: nat)
    requires count >= 1
    ensures Limited(RunCount(count, max, n).verdicts, count, max)
  {
    if n > 0 {
      CountBound(count, max, n - 1);
      VerdictsAreBits(count, max, n - 1);
      RingIsRecent(count, max, n - 1);
      LimitedNext(RunCount(count, max, n - 1).verdicts, count, max);
    }
  }

  /** In every run a call passes exactly when fewer than `max` of the last `count` calls did. */
  lemma {:induction false} CountPasses(count: nat, max: nat, n: nat)
    requires count >= 1
    ensures var before := RunCount(count, max, n).verdicts;
      RunCount(count, max, n + 1).verdicts == before + [if Passes(Recent(before, count)) < max then 1.0 else 0.0]
  {
    RingIsRecent(count, max, n);
    VerdictsAreBits(count, max, n);
    SumIsPasses(Recent(RunCount(count, max, n).verdicts, count));
  }

  lemma {:induction false} LimitedNext(w: seq<real>, count: nat, max: nat)
    requires Bits(w) && Limited(w, count, max)
    ensures Limited(w + [Verdict(Recent(w, count), max)], count, max)
  {
    var v := w + [Verdict(Recent(w, count), max)];
    forall i, j | 0 <= i <= j <= |v| && j - i <= count
      ensures Passes(v[i..j]) <= max
    {
      LimitedSnoc(w, count, max, i, j);
    }
  }
}
