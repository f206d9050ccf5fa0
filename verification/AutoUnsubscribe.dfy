/**
 Auto-unsubscribe over whole runs of publishes (`src/router.c`): a subscription limited to `n`
 messages gets exactly the ones it still has left, and is gone right after the last.
 */
module AutoUnsubscribe {
  import opened Bytes
  import opened Subjects
  import opened Subscriptions
  import opened LastValues
  import opened Delivery
  import opened Router

  // ----- one publish, entry by entry -----

  /** The number of entries that are `t` once those in `marks` have one more delivery. */
  function Afterwards(all: seq<Sub>, marks: seq<bool>, t: Sub): nat
    requires |marks| == |all|
  {
    if all == [] then 0
    else
      var s := all[0];
      (if (if marks[0] then s.(delivered := s.delivered + 1) else s) == t then 1 else 0) + Afterwards(all[1..], marks[1..], t)
  }

  /** It has had all it may get. */
  predicate Spent(t: Sub) {
    t.max.Some? && t.max.value <= t.delivered
  }

  lemma {:induction false} BumpTally(all: seq<Sub>, marks: seq<bool>, t: Sub)
    requires |marks| == |all|
    ensures Tally(Bump(all, marks), Is(t)) == Afterwards(all, marks, t)
  {
    if all != [] {
      assert Bump(all, marks)[1..] == Bump(all[1..], marks[1..]);
      BumpTally(all[1..], marks[1..], t);
    }
  }

  lemma {:induction false} TallyNever(all: seq<Sub>, p: Sub -> bool)
    requires forall s :: !p(s)
    ensures Tally(all, p) == 0
  {
    if all != [] {
      TallyNever(all[1..], p);
    }
  }

  /** After a publish each entry is there with its deliveries counted, unless that was its last. */
  lemma {:induction false} SettledCounts(all: seq<Sub>, marks: seq<bool>, all': seq<Sub>, t: Sub)
    requires Settled(all, marks, all')
    ensures multiset(all')[t] == if Spent(t) then 0 else Afterwards(all, marks, t)
  {
    var bumped := Bump(all, marks);
    SweepTally(bumped, EXPIRE, t);
    if Spent(t) {
      TallyNever(bumped, Becomes(EXPIRE, t));
    } else {
      TallySame(bumped, Becomes(EXPIRE, t), Is(t));
      BumpTally(all, marks, t);
    }
  }

  /** The subscription's filter matches and, if it is a `$LVC.` one, the subject is cached. */
  predicate Hears(config: Config, subject: Slice, s: Sub) {
    Matches(s.subject, subject) && (s.lvc ==> SubjectEnabled(config, subject))
  }

  /** The plain subscriptions of `c` in this list are marked exactly when they hear the message. */
  ghost predicate PlainMarked(all: seq<Sub>, marks: seq<bool>, c: nat, config: Config, subject: Slice)
    requires |marks| == |all|
  {
    forall i :: 0 <= i < |all| && all[i].conn == c && all[i].queue == [] ==> (marks[i] <==> Hears(config, subject, all[i]))
  }

  /** A publish delivers to every plain subscription that hears it, while the connection stays open. */
  lemma {:induction false} PlainServed(was: Conns, now: Conns, config: Config, m: Post, all: seq<Sub>, all': seq<Sub>,
                                       marks: seq<bool>, closes: seq<nat>, kicks: seq<nat>, c: nat)
    requires Published(was, now, config, m, all, all', marks, closes, kicks) && c in was && c in now && !now[c].closed
    ensures |marks| == |all| && !was[c].closed && PlainMarked(all, marks, c, config, m.subject)
  {
    var frame, wants := FrameFor(was, m), WantsFor(was, FitsFor(config, m.subject));
    assert ConnAfter(was[c], now[c], Sent(frame, all, marks, c), Due(frame, all, wants, c), c in kicks, c in closes);
  }

  /** What a plain subscription `t` was before a message that it hears, or does not. */
  function Before(t: Sub, hears: bool): Option<Sub> {
    if !hears then Some(t) else if t.delivered == 0 then None else Some(t.(delivered := t.delivered - 1))
  }

  lemma {:induction false} ServedCounts(all: seq<Sub>, marks: seq<bool>, config: Config, subject: Slice, t: Sub)
    requires |marks| == |all| && PlainMarked(all, marks, t.conn, config, subject) && t.queue == []
    ensures Afterwards(all, marks, t) ==
      match Before(t, Hears(config, subject, t)) { case None => 0 case Some(s) => multiset(all)[s] }
  {
    if all != [] {
      assert all == [all[0]] + all[1..];
      forall i | 0 <= i < |all[1..]| && all[1..][i].conn == t.conn && all[1..][i].queue == []
        ensures marks[1..][i] <==> Hears(config, subject, all[1..][i])
      {
        assert all[i + 1].conn == t.conn;
      }
      ServedCounts(all[1..], marks[1..], config, subject, t);
      ServedOne(all[0], marks[0], config, subject, t);
    }
  }

  lemma {:induction false} ServedOne(s: Sub, mark: bool, config: Config, subject: Slice, t: Sub)
    requires s.conn == t.conn && s.queue == [] ==> (mark <==> Hears(config, subject, s))
    requires t.queue == []
    ensures (if mark then s.(delivered := s.delivered + 1) else s) == t <==> Before(t, Hears(config, subject, t)) == Some(s)
  {
  }

  // ----- a run of publishes -----

  datatype Publication = Publication(
    was: Conns, now: Conns, config: Config, m: Post, all: seq<Sub>, all': seq<Sub>, marks: seq<bool>, closes: seq<nat>, kicks: seq<nat>)

  /** A publish that leaves connection `c` open. */
  ghost predicate Open(p: Publication, c: nat) {
    Published(p.was, p.now, p.config, p.m, p.all, p.all', p.marks, p.closes, p.kicks) && c in p.was && c in p.now && !p.now[c].closed
  }

  /** Connection `c` has the same subscriptions in both lists. */
  ghost predicate SameFor(c: nat, a: seq<Sub>, b: seq<Sub>) {
    forall t: Sub {:trigger multiset(b)[t]} :: t.conn == c ==> multiset(a)[t] == multiset(b)[t]
  }

  /** Publishes one after the other; in between, other connections may do what they like. */
  ghost predicate PublishRun(ps: seq<Publication>, c: nat) {
    (forall k :: 0 <= k < |ps| ==> Open(ps[k], c)) && forall k :: 0 < k < |ps| ==> SameFor(c, ps[k - 1].all', ps[k].all)
  }

  /** How many of the messages `s` hears. */
  function Heard(ps: seq<Publication>, s: Sub): nat {
    if ps == [] then 0
    else
      var p := ps[|ps| - 1];
      Heard(ps[..|ps| - 1], s) + if Hears(p.config, p.m.subject, s) then 1 else 0
  }

  function Later(s: Sub, n: nat): Sub {
    s.(delivered := s.delivered + n)
  }

  /** What a publish makes of the plain subscriptions of `c`. */
  ghost predicate Counted(p: Publication, c: nat) {
    forall t: Sub {:trigger multiset(p.all')[t]} :: t.conn == c && t.queue == [] ==> CountsFor(p, t)
  }

  predicate CountsFor(p: Publication, t: Sub) {
    multiset(p.all')[t] ==
    if Spent(t) then 0
    else match Before(t, Hears(p.config, p.m.subject, t)) { case None => 0 case Some(s) => multiset(p.all)[s] }
  }

  lemma {:induction false} PublicationCounts(p: Publication, t: Sub)
    requires Open(p, t.conn) && t.queue == []
    ensures CountsFor(p, t)
  {
    PlainServed(p.was, p.now, p.config, p.m, p.all, p.all', p.marks, p.closes, p.kicks, t.conn);
    SettledCounts(p.all, p.marks, p.all', t);
    ServedCounts(p.all, p.marks, p.config, p.m.subject, t);
  }

  lemma {:induction false} PublicationCounted(p: Publication, c: nat)
    requires Open(p, c)
    ensures Counted(p, c)
  {
    forall t: Sub | t.conn == c && t.queue == []
      ensures CountsFor(p, t)
    {
      PublicationCounts(p, t);
    }
  }

  ghost predicate CountedRun(ps: seq<Publication>, c: nat) {
    (forall k :: 0 <= k < |ps| ==> Counted(ps[k], c)) && forall k :: 0 < k < |ps| ==> SameFor(c, ps[k - 1].all', ps[k].all)
  }

  lemma {:induction false} RunCounted(ps: seq<Publication>, c: nat)
    requires PublishRun(ps, c)
    ensures CountedRun(ps, c)
  {
    forall k | 0 <= k < |ps|
      ensures Counted(ps[k], c)
    {
      PublicationCounted(ps[k], c);
    }
  }

  /** One more publish, for a subscription that has heard `h` messages. */
  lemma {:induction false} NextCounts(p: Publication, s: Sub, h: nat)
    requires Counted(p, s.conn) && s.queue == [] && s.max.Some?
    ensures var t := Later(s, h + if Hears(p.config, p.m.subject, s) then 1 else 0);
      multiset(p.all')[t] == if t.delivered < s.max.value then multiset(p.all)[Later(s, h)] else 0
  {
    var t := Later(s, h + if Hears(p.config, p.m.subject, s) then 1 else 0);
    assert multiset(p.all')[t] >= 0;
    assert CountsFor(p, t);
    assert Before(t, Hears(p.config, p.m.subject, s)) == Some(Later(s, h));
  }

  lemma {:induction false} CountedKept(ps: seq<Publication>, s: Sub)
    requires ps != [] && CountedRun(ps, s.conn) && s.queue == [] && s.max.Some?
    ensures var t, all' := Later(s, Heard(ps, s)), ps[|ps| - 1].all';
      multiset(all')[t] == if t.delivered < s.max.value then multiset(ps[0].all)[s] else 0
    decreases |ps|
  {
    var n := |ps| - 1;
    var p, before := ps[n], ps[..n];
    var b := Later(s, Heard(before, s));
    NextCounts(p, s, Heard(before, s));
    if n > 0 {
      CountedKept(before, s);
      assert SameFor(s.conn, ps[n - 1].all', ps[n].all);
      assert multiset(ps[n - 1].all')[b] == multiset(p.all)[b];
    } else {
      assert b == s;
    }
  }

  /**
   Over every run of publishes that leaves its connection open, a plain subscription limited to `max`
   is there with all the messages it heard counted, as often as it was, while these are below `max`;
   from the message on that makes them `max` it is gone.
   */
  lemma {:induction false} LimitKept(ps: seq<Publication>, s: Sub)
    requires ps != [] && PublishRun(ps, s.conn) && s.queue == [] && s.max.Some?
    ensures var t, all' := Later(s, Heard(ps, s)), ps[|ps| - 1].all';
      multiset(all')[t] == if t.delivered < s.max.value then multiset(ps[0].all)[s] else 0
  {
    RunCounted(ps, s.conn);
    CountedKept(ps, s);
  }

  /** The messages among those it hears that it is still there for. */
  function Delivered(ps: seq<Publication>, s: Sub): nat
    requires s.max.Some?
  {
    if ps == [] then 0
    else
      var before, p := ps[..|ps| - 1], ps[|ps| - 1];
      Delivered(before, s) +
      if Hears(p.config, p.m.subject, s) && s.delivered + Heard(before, s) < s.max.value then 1 else 0
  }

  /** That is all it hears, but at most as many as it had left. */
  lemma {:induction false} DeliveredIs(ps: seq<Publication>, s: Sub)
    requires s.max.Some? && s.delivered <= s.max.value
    ensures var left := s.max.value - s.delivered;
      Delivered(ps, s) == if Heard(ps, s) < left then Heard(ps, s) else left
    decreases |ps|
  {
    if ps != [] {
      DeliveredIs(ps[..|ps| - 1], s);
    }
  }

  /** Wherever a publish of the run finds the subscription, it marks it exactly when it hears the message. */
  lemma {:induction false} MarkedWhenHeard(ps: seq<Publication>, s: Sub, k: nat, i: nat)
    requires PublishRun(ps, s.conn) && s.queue == [] && k < |ps|
    requires i < |ps[k].all| && ps[k].all[i] == Later(s, Heard(ps[..k], s))
    ensures |ps[k].marks| == |ps[k].all| && (ps[k].marks[i] <==> Hears(ps[k].config, ps[k].m.subject, s))
  {
    var p := ps[k];
    assert Open(p, s.conn);
    PlainServed(p.was, p.now, p.config, p.m, p.all, p.all', p.marks, p.closes, p.kicks, s.conn);
  }

  /**
   The whole of it: `UNSUB sid n` on a plain subscription that has had fewer than `n` messages keeps it,
   with `n` as its maximum, and over any publishes that follow it is delivered exactly the first
   `n - delivered` messages that it hears, and is gone after these.
   */
  lemma {:induction false} AutoUnsubscribes(before: seq<Sub>, after: seq<Sub>, c: nat, n: nat, s: Sub, ps: seq<Publication>)
    requires Unsubscribed(before, after, c, s.sid, Some(n)) && s in before && s.conn == c && s.queue == [] && s.delivered < n
    requires ps != [] && PublishRun(ps, c) && SameFor(c, after, ps[0].all)
    ensures var limited := s.(max := Some(n));
      var t := Later(limited, Heard(ps, limited));
      multiset(ps[0].all)[limited] == multiset(after)[limited] > 0 &&
      multiset(ps[|ps| - 1].all')[t] == (if Heard(ps, limited) < n - s.delivered then multiset(after)[limited] else 0) &&
      Delivered(ps, limited) == if Heard(ps, limited) < n - s.delivered then Heard(ps, limited) else n - s.delivered
  {
    var limited := s.(max := Some(n));
    TallyOne(before, GivenMax(Some(n), limited), s);
    assert multiset(after)[limited] == Tally(before, GivenMax(Some(n), limited));
    LimitKept(ps, limited);
    DeliveredIs(ps, limited);
  }

  lemma {:induction false} TallyOne(all: seq<Sub>, p: Sub -> bool, s: Sub)
    requires s in all && p(s)
    ensures Tally(all, p) > 0
  {
    if all[0] != s {
      TallyOne(all[1..], p, s);
    }
  }
}
