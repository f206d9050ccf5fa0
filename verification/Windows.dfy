/**
 Ring windows (`src/patchbay/pb_form_windows.c`, and the ring branch of `pb_eval_tick_state_entry`
 in `src/patchbay/pb_forms.c`). A circular buffer of samples refines a sequence; values are reals,
 so that the running sum is exact.
 */
module Windows {

  datatype Sample = Sample(t: nat, x: real)

  // ----- the reference: a window is a sequence of samples -----

  function Sum(xs: seq<real>): real {
    if xs == [] then 0.0 else xs[0] + Sum(xs[1..])
  }

  lemma {:induction false} SumSnoc(xs: seq<real>, x: real)
    ensures Sum(xs + [x]) == Sum(xs) + x
  {
    if xs == [] {
      assert xs + [x] == [x] && [x][1..] == [];
    } else {
      assert (xs + [x])[1..] == xs[1..] + [x];
      SumSnoc(xs[1..], x);
    }
  }

  function Xs(w: seq<Sample>): (r: seq<real>)
    ensures |r| == |w|
  {
    seq(|w|, i requires 0 <= i < |w| => w[i].x)
  }

  function Cutoff(now: nat, window: nat): nat {
    if now > window then now - window else 0
  }

  /** Drop the samples before the first one that is not older than the cutoff. */
  function Evict(w: seq<Sample>, cutoff: nat): (r: seq<Sample>)
    ensures |r| <= |w| && r == w[|w| - |r|..]
    ensures forall i :: 0 <= i < |w| - |r| ==> w[i].t < cutoff
    ensures r != [] ==> r[0].t >= cutoff
  {
    if w == [] || w[0].t >= cutoff then w
    else
      var r := Evict(w[1..], cutoff);
      assert forall i :: 1 <= i < |w| - |r| ==> w[i] == w[1..][i - 1];
      r
  }

  lemma {:induction false} EvictFirst(w: seq<Sample>, cutoff: nat)
    requires w != []
    ensures Evict(w, cutoff) == if w[0].t >= cutoff then w else Evict(w[1..], cutoff)
  {
  }

  function PushTime(w: seq<Sample>, window: nat, now: nat, x: real): seq<Sample> {
    Evict(w, Cutoff(now, window)) + [Sample(now, x)]
  }

  /** Groups one after the other. */
  function Flatten<T>(gs: seq<seq<T>>): seq<T> {
    if gs == [] then [] else Flatten(gs[..|gs| - 1]) + gs[|gs| - 1]
  }

  // ----- circular buffers -----

  /** `(start + i) % cap`, which wraps at most once. */
  function At(start: nat, i: nat, cap: nat): (p: nat)
    requires start < cap && i <= cap
    ensures p < cap
  {
    if start + i < cap then start + i else start + i - cap
  }

  lemma {:induction false} MultipleGrows(cap: nat, q: nat)
    requires q >= 2
    ensures cap * q >= cap * 2
  {
    if q > 2 {
      MultipleGrows(cap, q - 1);
      assert cap * q == cap * (q - 1) + cap;
    }
  }

  lemma {:induction false} AtIsModulo(start: nat, i: nat, cap: nat)
    requires start < cap && i <= cap
    ensures At(start, i, cap) == (start + i) % cap
  {
    var n := start + i;
    var q, r := n / cap, n % cap;
    assert n == cap * q + r;
    if q >= 2 {
      MultipleGrows(cap, q);
    } else if q == 1 {
      assert cap * q == cap;
    } else {
      assert cap * q == 0;
    }
  }

  /** The logical contents of a circular buffer. */
  function Unroll<T>(a: seq<T>, start: nat, len: nat): (r: seq<T>)
    requires len <= |a| && (len > 0 ==> start < |a|)
    ensures |r| == len
  {
    seq(len, i requires 0 <= i < len => a[At(start, i, |a|)])
  }

  lemma {:induction false} UnrollPush<T>(a: seq<T>, start: nat, len: nat, x: T)
    requires len < |a| && start < |a|
    ensures Unroll(a[At(start, len, |a|) := x], start, len + 1) == Unroll(a, start, len) + [x]
  {
  }

  lemma {:induction false} UnrollPop<T>(a: seq<T>, start: nat, len: nat)
    requires 0 < len <= |a| && start < |a|
    ensures Unroll(a, At(start, 1, |a|), len - 1) == Unroll(a, start, len)[1..]
  {
  }

  /** Overwriting the oldest element of a full buffer and advancing drops it and appends the new one. */
  lemma {:induction false} UnrollReplace<T>(a: seq<T>, start: nat, x: T)
    requires start < |a|
    ensures Unroll(a[start := x], At(start, 1, |a|), |a|) == Unroll(a, start, |a|)[1..] + [x]
  {
  }

  function Zip(ts: seq<nat>, xs: seq<real>): (w: seq<Sample>)
    requires |ts| == |xs|
    ensures |w| == |xs|
  {
    seq(|ts|, i requires 0 <= i < |ts| => Sample(ts[i], xs[i]))
  }

  /** The aggregates `calc_ring` can compute; `stddev` is the square root of `Variance`. */
  datatype Calc = CalcSum | CalcAvg | CalcMin | CalcMax | CalcVariance

  function MinOf(xs: seq<real>): real
    requires xs != []
  {
    if |xs| == 1 then xs[0] else var m := MinOf(xs[..|xs| - 1]); var x := xs[|xs| - 1]; if x < m then x else m
  }

  function MaxOf(xs: seq<real>): real
    requires xs != []
  {
    if |xs| == 1 then xs[0] else var m := MaxOf(xs[..|xs| - 1]); var x := xs[|xs| - 1]; if x > m then x else m
  }

  function SquareDeviations(xs: seq<real>, mean: real): real {
    if xs == [] then 0.0
    else SquareDeviations(xs[..|xs| - 1], mean) + (xs[|xs| - 1] - mean) * (xs[|xs| - 1] - mean)
  }

  function Calculate(xs: seq<real>, what: Calc): real
    requires xs != []
  {
    var n := |xs| as real;
    match what
    case CalcSum => Sum(xs)
    case CalcAvg => Sum(xs) / n
    case CalcMin => MinOf(xs)
    case CalcMax => MaxOf(xs)
    case CalcVariance => SquareDeviations(xs, Sum(xs) / n) / n
  }

  /** The ring fields of a state slot. `times` is only allocated for a time window. */
  class Ring {
    var values: array<real>
    var times: array<nat>
    var start: nat
    var len: nat
    var sum: real
    const timed: bool
    const window: nat

    ghost predicate Valid()
      reads this, values
    {
      len <= values.Length && (values.Length > 0 ==> start < values.Length) &&
      (timed ==> times.Length == values.Length) && sum == Sum(Values())
    }

    /** The samples' values, oldest first. */
    ghost function Values(): (xs: seq<real>)
      requires len <= values.Length && (values.Length > 0 ==> start < values.Length)
      reads this, values
    {
      Unroll(values[..], start, len)
    }

    ghost function Samples(): (w: seq<Sample>)
      requires Valid() && timed
      reads this, values, times
      ensures |w| == len
    {
      Zip(Unroll(times[..], start, len), Values())
    }

    /** A window slot when it is first used: `count` cells, or none for a time window. */
    constructor (timed: bool, window: nat, count: nat)
      ensures Valid() && fresh(values) && fresh(times) && Values() == []
      ensures this.timed == timed && this.window == window && (!timed ==> values.Length == count)
      ensures len == 0
    {
      this.timed, this.window := timed, window;
      start, len, sum := 0, 0, 0.0;
      values := new real[if timed then 0 else count];
      times := new nat[0];
    }

    /** `ring_reserve`: growth copies the ring into logical order. */
    method Reserve(cap: nat)
      requires Valid() && timed
      modifies this`values, this`times, this`start
      ensures Valid() && Samples() == old(Samples()) && Values() == old(Values())
      ensures values.Length >= cap && values.Length >= old(values.Length)
      ensures (values == old(values) && times == old(times)) || (fresh(values) && fresh(times))
    {
      if values.Length >= cap {
        return;
      }
      var values' := Copy(values, start, len, cap, 0.0);
      var times' := Copy(times, start, len, cap, 0);
      values, times, start := values', times', 0;
    }

    /** Copy a ring out in logical order. */
    static method Copy<T>(a: array<T>, start: nat, len: nat, cap: nat, zero: T) returns (b: array<T>)
      requires len <= a.Length && (len > 0 ==> start < a.Length) && len <= cap && cap > 0
      ensures fresh(b) && b.Length == cap && Unroll(b[..], 0, len) == Unroll(a[..], start, len)
    {
      b := new T[cap](_ => zero);
      for i := 0 to len
        invariant forall j :: 0 <= j < i ==> b[j] == a[At(start, j, a.Length)]
      {
        b[i] := a[At(start, i, a.Length)];
      }
      assert forall j :: 0 <= j < len ==> At(0, j, cap) == j;
    }

    /** `ring_push_count`: a full ring overwrites its oldest value. */
    method PushCount(x: real)
      requires Valid() && !timed && values.Length > 0
      modifies this`start, this`len, this`sum, values
      ensures Valid()
      ensures Values() == (if old(len) < values.Length then old(Values()) else old(Values())[1..]) + [x]
    {
      ghost var a, xs := values[..], Values();
      if len < values.Length {
        var idx := At(start, len, values.Length);
        values[idx] := x;
        assert values[..] == a[idx := x];
        UnrollPush(a, start, len, x);
        SumSnoc(xs, x);
        len := len + 1;
        sum := sum + x;
        return;
      }
      var idx := start;
      sum := sum - values[idx];
      values[idx] := x;
      assert values[..] == a[idx := x];
      UnrollReplace(a, start, x);
      SumSnoc(xs[1..], x);
      sum := sum + x;
      start := At(start, 1, values.Length);
    }

    /** Forget the oldest sample. */
    method Pop()
      requires Valid() && timed && len > 0
      modifies this`start, this`len, this`sum
      ensures Valid() && Samples() == old(Samples())[1..] && len == old(len) - 1
    {
      ghost var w, xs := Samples(), Values();
      UnrollPop(values[..], start, len);
      UnrollPop(times[..], start, len);
      sum := sum - values[start];
      start := At(start, 1, values.Length);
      len := len - 1;
      assert Values() == xs[1..];
    }

    /** `ring_evict_time`. */
    method EvictTime(cutoff: nat)
      requires Valid() && timed
      modifies this`start, this`len, this`sum
      ensures Valid() && Samples() == Evict(old(Samples()), cutoff)
    {
      while len > 0
        invariant Valid()
        invariant Evict(Samples(), cutoff) == Evict(old(Samples()), cutoff)
      {
        assert Samples()[0] == Sample(times[start], values[start]);
        EvictFirst(Samples(), cutoff);
        if times[start] >= cutoff {
          return;
        }
        Pop();
      }
    }

    /** `ring_push_time`. */
    method Append(x: real, t: nat)
      requires Valid() && timed
      modifies this`values, this`times, this`start, this`len, this`sum, values, times
      ensures Valid() && Samples() == old(Samples()) + [Sample(t, x)]
      ensures (values == old(values) && times == old(times)) || (fresh(values) && fresh(times))
    {
      if len == values.Length {
        Reserve(if values.Length == 0 then 16 else values.Length * 2);
      }
      AppendCell(x, t);
    }

    /** Append where there is room. */
    method AppendCell(x: real, t: nat)
      requires Valid() && timed && len < values.Length
      modifies this`len, this`sum, values, times
      ensures Valid() && Samples() == old(Samples()) + [Sample(t, x)]
    {
      ghost var a, b, xs, ts := values[..], times[..], Values(), Unroll(times[..], start, len);
      var idx := At(start, len, values.Length);
      values[idx] := x;
      times[idx] := t;
      assert values[..] == a[idx := x] && times[..] == b[idx := t];
      UnrollPush(a, start, len, x);
      UnrollPush(b, start, len, t);
      SumSnoc(xs, x);
      len := len + 1;
      sum := sum + x;
      assert Values() == xs + [x] && Unroll(times[..], start, len) == ts + [t];
    }

    /** `window_push` for a time window: evict, then append. */
    method PushWindow(now: nat, x: real)
      requires Valid() && timed
      modifies this`values, this`times, this`start, this`len, this`sum, values, times
      ensures Valid() && Samples() == PushTime(old(Samples()), window, now, x)
      ensures (values == old(values) && times == old(times)) || (fresh(values) && fresh(times))
    {
      EvictTime(if now > window then now - window else 0);
      Append(x, now);
    }

    /** The ring branch of `pb_eval_tick_state_entry`. */
    method Tick(now: nat)
      requires Valid() && timed
      modifies this`start, this`len, this`sum
      ensures Valid() && Samples() == Evict(old(Samples()), Cutoff(now, window))
    {
      if len > 0 {
        EvictTime(if now > window then now - window else 0);
      }
    }

    /** An aggregate bucket starts over. */
    method Reset()
      requires Valid()
      modifies this`start, this`len, this`sum
      ensures Valid() && Values() == [] && len == 0
    {
      start, len, sum := 0, 0, 0.0;
    }

    /** `calc_ring`, on a nonempty ring. */
    method CalcRing(what: Calc) returns (r: real)
      requires Valid() && len > 0
      ensures r == Calculate(Values(), what)
    {
      match what
      case CalcSum => r := sum;
      case CalcAvg => r := sum / (len as real);
      case CalcMin => r := Extreme(true);
      case CalcMax => r := Extreme(false);
      case CalcVariance => r := Variance();
    }

    method Extreme(least: bool) returns (acc: real)
      requires Valid() && len > 0
      ensures acc == if least then MinOf(Values()) else MaxOf(Values())
    {
      ghost var xs := Values();
      acc := values[At(start, 0, values.Length)];
      assert xs[..1] == [acc];
      for i := 1 to len
        invariant acc == if least then MinOf(xs[..i]) else MaxOf(xs[..i])
      {
        var x := values[At(start, i, values.Length)];
        assert xs[..i + 1][..i] == xs[..i] && xs[..i + 1][i] == x;
        if least && x < acc { acc := x; }
        if !least && x > acc { acc := x; }
      }
      assert xs[..len] == xs;
    }

    method Variance() returns (r: real)
      requires Valid() && len > 0
      ensures r == Calculate(Values(), CalcVariance)
    {
      ghost var xs := Values();
      var mean := sum / (len as real);
      var sumsq := 0.0;
      for i := 0 to len
        invariant sumsq == SquareDeviations(xs[..i], mean)
      {
        var d := values[At(start, i, values.Length)] - mean;
        assert xs[..i + 1][..i] == xs[..i] && xs[..i + 1][i] - mean == d;
        sumsq := sumsq + d * d;
      }
      assert xs[..len] == xs;
      r := sumsq / (len as real);
    }
  }

  // ----- what MinOf and MaxOf mean -----

  lemma {:induction false} ExtremesAreExtreme(xs: seq<real>)
    requires xs != []
    ensures MinOf(xs) in xs && forall x :: x in xs ==> MinOf(xs) <= x
    ensures MaxOf(xs) in xs && forall x :: x in xs ==> x <= MaxOf(xs)
  {
    if |xs| > 1 {
      ExtremesAreExtreme(xs[..|xs| - 1]);
      assert xs == xs[..|xs| - 1] + [xs[|xs| - 1]];
    }
  }

  // ----- what the other calculations mean -----

  /** The sums of the first values, of any number of them. */
  predicate PartialSums(xs: seq<real>, p: seq<real>) {
    |p| == |xs| + 1 && p[0] == 0.0 && forall i :: 0 <= i < |xs| ==> p[i + 1] == p[i] + xs[i]
  }

  lemma {:induction false} SumIsPartial(xs: seq<real>, p: seq<real>)
    requires PartialSums(xs, p)
    ensures Sum(xs) == p[|xs|]
  {
    if xs != [] {
      var n := |xs| - 1;
      SumIsPartial(xs[..n], p[..n + 1]);
      SumSnoc(xs[..n], xs[n]);
      assert xs == xs[..n] + [xs[n]];
    }
  }

  function Square(x: real): real {
    x * x
  }

  function Squares(xs: seq<real>): (r: seq<real>)
    ensures |r| == |xs|
  {
    seq(|xs|, i requires 0 <= i < |xs| => Square(xs[i]))
  }

  /** Squared deviations from `mean`, multiplied out. */
  function Expanded(squares: real, sum: real, n: real, mean: real): real {
    squares - 2.0 * mean * sum + n * Square(mean)
  }

  lemma {:induction false} ExpandStep(squares: real, sum: real, n: real, mean: real, x: real)
    ensures Expanded(squares, sum, n, mean) + Square(x - mean) == Expanded(squares + Square(x), sum + x, n + 1.0, mean)
  {
    assert (x - mean) * (x - mean) == Square(x) - 2.0 * mean * x + Square(mean);
    assert 2.0 * mean * (sum + x) == 2.0 * mean * sum + 2.0 * mean * x;
    assert (n + 1.0) * Square(mean) == n * Square(mean) + Square(mean);
  }

  lemma {:induction false} DeviationsSnoc(xs: seq<real>, x: real, mean: real)
    ensures SquareDeviations(xs + [x], mean) == SquareDeviations(xs, mean) + Square(x - mean)
  {
    assert (xs + [x])[..|xs|] == xs;
  }

  lemma {:induction false} SquaresSnoc(xs: seq<real>, x: real)
    ensures Squares(xs + [x]) == Squares(xs) + [Square(x)]
  {
  }

  lemma {:induction false} ExpandedSnoc(xs: seq<real>, x: real, mean: real)
    requires SquareDeviations(xs, mean) == Expanded(Sum(Squares(xs)), Sum(xs), |xs| as real, mean)
    ensures SquareDeviations(xs + [x], mean) == Expanded(Sum(Squares(xs + [x])), Sum(xs + [x]), |xs + [x]| as real, mean)
  {
    DeviationsSnoc(xs, x, mean);
    SumSnoc(xs, x);
    SquaresSnoc(xs, x);
    SumSnoc(Squares(xs), Square(x));
    ExpandStep(Sum(Squares(xs)), Sum(xs), |xs| as real, mean, x);
  }

  lemma {:induction false} DeviationsExpand(xs: seq<real>, mean: real)
    ensures SquareDeviations(xs, mean) == Expanded(Sum(Squares(xs)), Sum(xs), |xs| as real, mean)
  {
    if xs == [] {
      assert Squares(xs) == [];
    } else {
      var n := |xs| - 1;
      DeviationsExpand(xs[..n], mean);
      ExpandedSnoc(xs[..n], xs[n], mean);
      assert xs == xs[..n] + [xs[n]];
    }
  }

  lemma {:induction false} QuotientBack(a: real, n: real)
    requires n > 0.0
    ensures (a / n) * n == a
  {
  }

  /** The average times the number of values is their sum. */
  lemma {:induction false} AverageMeans(xs: seq<real>)
    requires xs != []
    ensures Calculate(xs, CalcAvg) * |xs| as real == Sum(xs)
  {
    QuotientBack(Sum(xs), |xs| as real);
  }

  lemma {:induction false} MeanTwice(sum: real, n: real, mean: real)
    requires mean * n == sum
    ensures 2.0 * mean * sum == 2.0 * (n * Square(mean))
  {
    assert mean * sum == mean * (mean * n);
  }

  /** The variance is the average of the squares less the square of the average. */
  lemma {:induction false} VarianceMeans(xs: seq<real>)
    requires xs != []
    ensures Calculate(xs, CalcVariance) * |xs| as real == Sum(Squares(xs)) - |xs| as real * Square(Calculate(xs, CalcAvg))
  {
    var n, mean := |xs| as real, Calculate(xs, CalcAvg);
    AverageMeans(xs);
    QuotientBack(SquareDeviations(xs, mean), n);
    DeviationsExpand(xs, mean);
    MeanTwice(Sum(xs), n, mean);
  }

  /** The sum is the last partial sum, the minimum a lower bound that is reached, the maximum an upper one. */
  lemma {:induction false} CalculationsMean(xs: seq<real>, p: seq<real>)
    requires xs != [] && PartialSums(xs, p)
    ensures Calculate(xs, CalcSum) == p[|xs|]
    ensures Calculate(xs, CalcMin) in xs && forall x :: x in xs ==> Calculate(xs, CalcMin) <= x
    ensures Calculate(xs, CalcMax) in xs && forall x :: x in xs ==> x <= Calculate(xs, CalcMax)
  {
    SumIsPartial(xs, p);
    ExtremesAreExtreme(xs);
  }

  // ----- every run of pushes and ticks -----

  datatype Event = Push(t: nat, x: real) | Tick(t: nat)

  /** The times a slot sees never decrease. */
  predicate Ordered(events: seq<Event>) {
    forall i, j :: 0 <= i < j < |events| ==> events[i].t <= events[j].t
  }

  function RunWindow(window: nat, events: seq<Event>): seq<Sample> {
    if events == [] then []
    else
      var w, e := RunWindow(window, events[..|events| - 1]), events[|events| - 1];
      match e
      case Push(t, x) => PushTime(w, window, t, x)
      case Tick(t) => Evict(w, Cutoff(t, window))
  }

  /** Everything that was ever pushed, in order. */
  function Pushed(events: seq<Event>): (w: seq<Sample>)
    ensures forall s :: s in w ==> exists i :: 0 <= i < |events| && events[i].t == s.t
  {
    if events == [] then []
    else
      var w, e := Pushed(events[..|events| - 1]), events[|events| - 1];
      if e.Push? then w + [Sample(e.t, e.x)] else w
  }

  function NotBefore(w: seq<Sample>, cutoff: nat): (r: seq<Sample>)
    ensures forall s :: s in r ==> s in w && s.t >= cutoff
  {
    if w == [] then []
    else
      var r := NotBefore(w[..|w| - 1], cutoff);
      if w[|w| - 1].t >= cutoff then r + [w[|w| - 1]] else r
  }

  predicate Sorted(w: seq<Sample>) {
    forall i, j :: 0 <= i < j < |w| ==> w[i].t <= w[j].t
  }

  lemma {:induction false} EvictSnoc(w: seq<Sample>, s: Sample, cutoff: nat)
    ensures Evict(w + [s], cutoff) ==
      if Evict(w, cutoff) == [] then (if s.t >= cutoff then [s] else []) else Evict(w, cutoff) + [s]
  {
    if w == [] {
      assert w + [s] == [s] && [s][1..] == [];
    } else if w[0].t < cutoff {
      assert (w + [s])[1..] == w[1..] + [s];
      EvictSnoc(w[1..], s, cutoff);
    }
  }

  lemma {:induction false} FilterSnoc(w: seq<Sample>, s: Sample, cutoff: nat)
    ensures NotBefore(w + [s], cutoff) == NotBefore(w, cutoff) + if s.t >= cutoff then [s] else []
  {
    assert (w + [s])[..|w|] == w;
  }

  lemma {:induction false} EvictIsFilterSnoc(w: seq<Sample>, s: Sample, cutoff: nat)
    requires Evict(w, cutoff) == NotBefore(w, cutoff)
    requires forall i :: 0 <= i < |w| ==> w[i].t <= s.t
    ensures Evict(w + [s], cutoff) == NotBefore(w + [s], cutoff)
  {
    EvictSnoc(w, s, cutoff);
    FilterSnoc(w, s, cutoff);
  }

  /** On sorted samples, eviction keeps exactly the samples that are not before the cutoff. */
  lemma {:induction false} EvictIsFilter(w: seq<Sample>, cutoff: nat)
    requires Sorted(w)
    ensures Evict(w, cutoff) == NotBefore(w, cutoff)
  {
    if w != [] {
      var n := |w| - 1;
      EvictIsFilter(w[..n], cutoff);
      EvictIsFilterSnoc(w[..n], w[n], cutoff);
      assert w[..n] + [w[n]] == w;
    }
  }

  lemma {:induction false} FilterTwice(w: seq<Sample>, c1: nat, c2: nat)
    requires c1 <= c2
    ensures NotBefore(NotBefore(w, c1), c2) == NotBefore(w, c2)
  {
    if w != [] {
      FilterTwice(w[..|w| - 1], c1, c2);
      var r := NotBefore(w[..|w| - 1], c1);
      if w[|w| - 1].t >= c1 {
        assert (r + [w[|w| - 1]])[..|r|] == r;
      }
    }
  }

  lemma {:induction false} FilterSorted(w: seq<Sample>, cutoff: nat)
    requires Sorted(w)
    ensures Sorted(NotBefore(w, cutoff))
  {
    if w != [] {
      var n := |w| - 1;
      FilterSorted(w[..n], cutoff);
      forall s | s in NotBefore(w[..n], cutoff)
        ensures s.t <= w[n].t
      {
        assert s in w[..n];
      }
    }
  }

  lemma {:induction false} PushedSorted(events: seq<Event>)
    requires Ordered(events)
    ensures Sorted(Pushed(events))
  {
    if events != [] {
      PushedSorted(events[..|events| - 1]);
    }
  }

  /**
   After any run, the window holds, in order, exactly the pushed samples that are not older than
   the window at the time of the last event.
   */
  lemma {:induction false} WindowIsRecent(window: nat, events: seq<Event>)
    requires Ordered(events) && events != []
    ensures RunWindow(window, events) == NotBefore(Pushed(events), Cutoff(events[|events| - 1].t, window))
  {
    var n := |events| - 1;
    var before, e := events[..n], events[n];
    var w, all, c := RunWindow(window, before), Pushed(before), Cutoff(e.t, window);
    PushedSorted(before);
    if before != [] {
      WindowIsRecent(window, before);
      var c1 := Cutoff(before[n - 1].t, window);
      FilterSorted(all, c1);
      EvictIsFilter(w, c);
      FilterTwice(all, c1, c);
    }
    if e.Push? {
      FilterSnoc(all, Sample(e.t, e.x), c);
    }
  }

  function Pushes(events: seq<Event>): seq<Event> {
    if events == [] then []
    else
      var r, e := Pushes(events[..|events| - 1]), events[|events| - 1];
      if e.Push? then r + [e] else r
  }

  lemma {:induction false} PushedOfPushes(events: seq<Event>)
    ensures Pushed(Pushes(events)) == Pushed(events)
  {
    if events != [] {
      PushedOfPushes(events[..|events| - 1]);
      var r, e := Pushes(events[..|events| - 1]), events[|events| - 1];
      if e.Push? {
        assert (r + [e])[..|r|] == r;
      }
    }
  }

  lemma {:induction false} PushesOrdered(events: seq<Event>)
    requires Ordered(events)
    ensures Ordered(Pushes(events))
    ensures forall e :: e in Pushes(events) ==> e in events
  {
    if events != [] {
      var n := |events| - 1;
      PushesOrdered(events[..n]);
      forall e | e in Pushes(events[..n])
        ensures e.t <= events[n].t
      {
        assert e in events[..n];
      }
    }
  }

  /** Ticks inserted anywhere never change what a later push sees: only the pushes count. */
  lemma {:induction false} TicksAreInvisible(window: nat, events: seq<Event>)
    requires Ordered(events) && events != [] && events[|events| - 1].Push?
    ensures RunWindow(window, events) == RunWindow(window, Pushes(events))
  {
    WindowIsRecent(window, events);
    PushesOrdered(events);
    PushedOfPushes(events);
    WindowIsRecent(window, Pushes(events));
  }
}
