/**
 One publish seen by the subscriptions of one list (`src/router.c`): queue groups pick a member,
 frames are appended to the connections' output buffers, slow connections are closed, limited
 subscriptions expire. Connections are named by an id instead of a pointer; the kick and close
 callbacks that `mb_router_publish` makes at its end become the two lists it makes them from.
 */
module Delivery {
  import opened Bytes
  import opened Subjects
  import opened Subscriptions
  import opened LastValues
  import HashIndex
  import Frames

  const MAX_PENDING: nat := 64 * 1024 * 1024

  /** `mb_router_conn`; `kicks` and `closes` say whether the callbacks are set, `sse` which writer is. */
  datatype Conn = Conn(out: Slice, subCount: nat, closed: bool, kickSeen: nat, closeSeen: nat,
                       kicks: bool, closes: bool, sse: bool)

  type Conns = map<nat, Conn>

  /** What is published. */
  datatype Post = Post(subject: Slice, reply: Slice, payload: Slice)

  function Frame(sse: bool, s: Sub, m: Post): Slice {
    var prefix := if s.lvc then LVC_PREFIX else [];
    if sse then Frames.SseFrame(Frames.Sse(prefix + m.subject, m.payload))
    else Frames.MsgFrame(Frames.Msg(prefix + m.subject, s.sid, m.reply, m.payload))
  }

  /**
   `Frame` as a value. Methods and lemmas that only pass frames along take it as a ghost parameter
   that equals `Frame`, so that the definition of a frame stays out of their proofs.
   */
  type Framing = (bool, Sub, Post) -> Slice

  /** What a linear scan over all subscriptions would deliver to. */
  predicate Wanted(conns: Conns, fits: Sub -> bool, s: Sub) {
    s.conn in conns && !conns[s.conn].closed && fits(s)
  }

  predicate Admits(config: Config, subject: Slice, s: Sub) {
    Matches(s.subject, subject) && (s.lvc ==> SubjectEnabled(config, subject))
  }

  predicate SameGroup(s: Sub, t: Sub) {
    s.queue != [] && s.queue == t.queue && s.subject == t.subject && s.lvc == t.lvc
  }

  // ----- what a scan must achieve -----

  /** Some member of the group of `s` got the message, or lost its connection to this publish. */
  ghost predicate Served(subs: seq<Sub>, marks: seq<bool>, shut: nat -> bool, s: Sub)
    requires |marks| == |subs|
  {
    exists j :: 0 <= j < |subs| && SameGroup(s, subs[j]) && (marks[j] || shut(subs[j].conn))
  }

  ghost predicate OnlyWanted(subs: seq<Sub>, marks: seq<bool>, wants: Sub -> bool)
    requires |marks| == |subs|
  {
    forall i :: 0 <= i < |subs| && marks[i] ==> wants(subs[i])
  }

  ghost predicate AllPlain(subs: seq<Sub>, marks: seq<bool>, wants: Sub -> bool, shut: nat -> bool)
    requires |marks| == |subs|
  {
    forall i :: 0 <= i < |subs| && wants(subs[i]) && subs[i].queue == [] ==> marks[i] || shut(subs[i].conn)
  }

  ghost predicate OnePerGroup(subs: seq<Sub>, marks: seq<bool>)
    requires |marks| == |subs|
  {
    forall i, j :: 0 <= i < j < |subs| && marks[i] && marks[j] ==> !SameGroup(subs[i], subs[j])
  }

  ghost predicate AllGroups(subs: seq<Sub>, marks: seq<bool>, wants: Sub -> bool, shut: nat -> bool)
    requires |marks| == |subs|
  {
    forall i :: 0 <= i < |subs| && wants(subs[i]) && subs[i].queue != [] ==> Served(subs, marks, shut, subs[i])
  }

  /**
   `marks` says who got the message. Only wanted subscriptions do; every wanted one without a queue
   does unless its connection was shut; of a queue group at most one member does, and one does
   unless the chosen member's connection was shut.
   */
  ghost predicate Outcome(subs: seq<Sub>, marks: seq<bool>, wants: Sub -> bool, shut: nat -> bool) {
    |marks| == |subs| && OnlyWanted(subs, marks, wants) && AllPlain(subs, marks, wants, shut) &&
    OnePerGroup(subs, marks) && AllGroups(subs, marks, wants, shut)
  }

  lemma {:induction false} ServedWider(a: seq<Sub>, ma: seq<bool>, x: seq<Sub>, mx: seq<bool>, y: seq<Sub>, my: seq<bool>, shut: nat -> bool, s: Sub)
    requires |ma| == |a| && |mx| == |x| && |my| == |y| && Served(a, ma, shut, s)
    ensures Served(x + (a + y), mx + (ma + my), shut, s)
  {
    var j :| 0 <= j < |a| && SameGroup(s, a[j]) && (ma[j] || shut(a[j].conn));
    assert (x + (a + y))[|x| + j] == a[j];
  }

  lemma {:induction false} AllGroupsLeft(a: seq<Sub>, ma: seq<bool>, b: seq<Sub>, mb: seq<bool>, wants: Sub -> bool, shut: nat -> bool, i: nat)
    requires |ma| == |a| && |mb| == |b| && AllGroups(a, ma, wants, shut)
    requires i < |a| && wants(a[i]) && a[i].queue != []
    ensures Served(a + b, ma + mb, shut, a[i])
  {
    ServedWider(a, ma, [], [], b, mb, shut, a[i]);
    assert [] + (a + b) == a + b && [] + (ma + mb) == ma + mb;
  }

  lemma {:induction false} AllGroupsRight(a: seq<Sub>, ma: seq<bool>, b: seq<Sub>, mb: seq<bool>, wants: Sub -> bool, shut: nat -> bool, i: nat)
    requires |ma| == |a| && |mb| == |b| && AllGroups(b, mb, wants, shut)
    requires i < |b| && wants(b[i]) && b[i].queue != []
    ensures Served(a + b, ma + mb, shut, b[i])
  {
    ServedWider(b, mb, a, ma, [], [], shut, b[i]);
    assert b + [] == b && mb + [] == mb;
  }

  lemma {:induction false} OnePerGroupConcat(a: seq<Sub>, ma: seq<bool>, b: seq<Sub>, mb: seq<bool>)
    requires |ma| == |a| && |mb| == |b| && OnePerGroup(a, ma) && OnePerGroup(b, mb)
    requires forall i, j :: 0 <= i < |a| && 0 <= j < |b| && ma[i] && mb[j] ==> !SameGroup(a[i], b[j])
    ensures OnePerGroup(a + b, ma + mb)
  {
    var s, m := a + b, ma + mb;
    forall i, j | 0 <= i < j < |s| && m[i] && m[j]
      ensures !SameGroup(s[i], s[j])
    {
      if j < |a| {
        assert ma[i] && ma[j];
      } else if i < |a| {
        assert ma[i] && mb[j - |a|];
      } else {
        assert mb[i - |a|] && mb[j - |a|];
      }
    }
  }

  lemma {:induction false} AllGroupsConcat(a: seq<Sub>, ma: seq<bool>, b: seq<Sub>, mb: seq<bool>, wants: Sub -> bool, shut: nat -> bool)
    requires |ma| == |a| && |mb| == |b| && AllGroups(a, ma, wants, shut) && AllGroups(b, mb, wants, shut)
    ensures AllGroups(a + b, ma + mb, wants, shut)
  {
    var s := a + b;
    forall i | 0 <= i < |s| && wants(s[i]) && s[i].queue != []
      ensures Served(s, ma + mb, shut, s[i])
    {
      if i < |a| {
        AllGroupsLeft(a, ma, b, mb, wants, shut, i);
      } else {
        AllGroupsRight(a, ma, b, mb, wants, shut, i - |a|);
      }
    }
  }

  /** Two scans side by side, when no queue group spans both. */
  lemma {:induction false} OutcomeConcat(a: seq<Sub>, ma: seq<bool>, b: seq<Sub>, mb: seq<bool>, wants: Sub -> bool, shut: nat -> bool)
    requires Outcome(a, ma, wants, shut) && Outcome(b, mb, wants, shut)
    requires forall i, j :: 0 <= i < |a| && 0 <= j < |b| && ma[i] && mb[j] ==> !SameGroup(a[i], b[j])
    ensures Outcome(a + b, ma + mb, wants, shut)
  {
    OnePerGroupConcat(a, ma, b, mb);
    AllGroupsConcat(a, ma, b, mb, wants, shut);
  }

  function Nobody(n: nat): (marks: seq<bool>)
    ensures |marks| == n && forall i :: 0 <= i < n ==> !marks[i]
  {
    seq(n, _ => false)
  }

  lemma {:induction false} OutcomeNobody(a: seq<Sub>, wants: Sub -> bool, shut: nat -> bool)
    requires forall s :: s in a ==> !wants(s)
    ensures Outcome(a, Nobody(|a|), wants, shut)
  {
  }

  /** What is shut stays shut, so an outcome survives later deliveries of the same publish. */
  lemma {:induction false} OutcomeLater(a: seq<Sub>, m: seq<bool>, wants: Sub -> bool, shut: nat -> bool, shut': nat -> bool)
    requires Outcome(a, m, wants, shut)
    requires forall c :: shut(c) ==> shut'(c)
    ensures Outcome(a, m, wants, shut')
  {
    forall i | 0 <= i < |a| && wants(a[i]) && a[i].queue != []
      ensures Served(a, m, shut', a[i])
    {
      assert Served(a, m, shut, a[i]);
    }
  }

  // ----- what was sent -----

  /** The bytes connection `c` was sent. */
  function Sent(frame: Sub -> Slice, subs: seq<Sub>, marks: seq<bool>, c: nat): Slice
    requires |marks| == |subs|
  {
    if subs == [] then [] else
      var n := |subs| - 1;
      Sent(frame, subs[..n], marks[..n], c) + if marks[n] && subs[n].conn == c then frame(subs[n]) else []
  }

  /** The bytes connection `c` would be sent if every queue member were chosen. */
  function Due(frame: Sub -> Slice, subs: seq<Sub>, wants: Sub -> bool, c: nat): nat {
    if subs == [] then 0 else
      var n := |subs| - 1;
      Due(frame, subs[..n], wants, c) + if wants(subs[n]) && subs[n].conn == c then |frame(subs[n])| else 0
  }

  lemma {:induction false} ConcatLast<T>(a: seq<T>, b: seq<T>)
    requires b != []
    ensures var s := a + b; s[..|s| - 1] == a + b[..|b| - 1] && s[|s| - 1] == b[|b| - 1]
  {
  }

  lemma {:induction false} SentConcat(frame: Sub -> Slice, a: seq<Sub>, ma: seq<bool>, b: seq<Sub>, mb: seq<bool>, c: nat)
    requires |ma| == |a| && |mb| == |b|
    ensures Sent(frame, a + b, ma + mb, c) == Sent(frame, a, ma, c) + Sent(frame, b, mb, c)
    decreases |b|
  {
    var n := |b| - 1;
    if b == [] {
      assert a + b == a && ma + mb == ma;
    } else {
      ConcatLast(a, b);
      ConcatLast(ma, mb);
      SentConcat(frame, a, ma, b[..n], mb[..n], c);
      Frames.Assoc(Sent(frame, a, ma, c), Sent(frame, b[..n], mb[..n], c),
        if mb[n] && b[n].conn == c then frame(b[n]) else []);
    }
  }

  lemma {:induction false} DueConcat(frame: Sub -> Slice, a: seq<Sub>, b: seq<Sub>, wants: Sub -> bool, c: nat)
    ensures Due(frame, a + b, wants, c) == Due(frame, a, wants, c) + Due(frame, b, wants, c)
    decreases |b|
  {
    var s, n := a + b, |b| - 1;
    if b == [] {
      assert s == a;
    } else {
      assert s[..|s| - 1] == a + b[..n];
      DueConcat(frame, a, b[..n], wants, c);
    }
  }

  lemma {:induction false} SentNobody(frame: Sub -> Slice, a: seq<Sub>, marks: seq<bool>, wants: Sub -> bool, c: nat)
    requires |marks| == |a| && forall i :: 0 <= i < |a| ==> !marks[i] && !wants(a[i])
    ensures Sent(frame, a, marks, c) == [] && Due(frame, a, wants, c) == 0
    decreases |a|
  {
    if a != [] {
      SentNobody(frame, a[..|a| - 1], marks[..|a| - 1], wants, c);
    }
  }

  // ----- the counters of the subscriptions that got the message -----

  function BumpOne(s: Sub, hit: bool): Sub {
    if hit then s.(delivered := s.delivered + 1) else s
  }

  function Bump(subs: seq<Sub>, marks: seq<bool>): (r: seq<Sub>)
    requires |marks| == |subs|
    ensures |r| == |subs| && forall i :: 0 <= i < |r| ==> r[i] == BumpOne(subs[i], marks[i])
  {
    seq(|subs|, i requires 0 <= i < |subs| => BumpOne(subs[i], marks[i]))
  }

  predicate Expired(s: Sub) {
    s.max.Some? && s.delivered >= s.max.value
  }

  const EXPIRE: Rule := s => if Expired(s) then None else Some(s)

  // ----- queue groups -----

  datatype Group = Group(subject: Slice, queue: Slice, lvc: bool, selected: nat, seen: nat)

  /** `queue_group_eq`. */
  predicate InGroup(g: Group, s: Sub) {
    g.lvc == s.lvc && g.subject == s.subject && g.queue == s.queue
  }

  predicate SameKey(g: Group, h: Group) {
    g.lvc == h.lvc && g.subject == h.subject && g.queue == h.queue
  }

  predicate Candidate(wants: Sub -> bool, s: Sub) {
    s.queue != [] && wants(s)
  }

  ghost predicate HasGroup(groups: seq<Group>, s: Sub) {
    exists k :: 0 <= k < |groups| && InGroup(groups[k], s)
  }

  /** The groups of the first `n` entries, each with one of its members selected. */
  ghost predicate Collected(groups: seq<Group>, list: seq<Sub>, n: nat, wants: Sub -> bool)
    requires n <= |list|
  {
    |groups| <= n &&
    (forall k :: 0 <= k < |groups| ==>
      groups[k].selected < n && Candidate(wants, list[groups[k].selected]) && InGroup(groups[k], list[groups[k].selected])) &&
    (forall k, l :: 0 <= k < l < |groups| ==> !SameKey(groups[k], groups[l])) &&
    (forall i :: 0 <= i < n && Candidate(wants, list[i]) ==> HasGroup(groups, list[i]))
  }

  ghost predicate Chosen(groups: seq<Group>, s: Sub, i: nat) {
    s.queue == [] || exists k :: 0 <= k < |groups| && groups[k].selected == i && InGroup(groups[k], s)
  }

  lemma {:induction false} ChosenOnce(groups: seq<Group>, list: seq<Sub>, wants: Sub -> bool, i: nat, j: nat)
    requires Collected(groups, list, |list|, wants) && i < |list| && j < |list|
    requires SameGroup(list[i], list[j]) && Chosen(groups, list[i], i) && Chosen(groups, list[j], j)
    ensures i == j
  {
    var k :| 0 <= k < |groups| && groups[k].selected == i && InGroup(groups[k], list[i]);
    var l :| 0 <= l < |groups| && groups[l].selected == j && InGroup(groups[l], list[j]);
    if k < l {
      assert SameKey(groups[k], groups[l]);
    } else if l < k {
      assert SameKey(groups[l], groups[k]);
    }
  }

  lemma {:induction false} ChosenExists(groups: seq<Group>, list: seq<Sub>, wants: Sub -> bool, i: nat) returns (j: nat)
    requires Collected(groups, list, |list|, wants) && i < |list| && Candidate(wants, list[i])
    ensures j < |list| && SameGroup(list[i], list[j]) && Chosen(groups, list[j], j) && wants(list[j])
  {
    assert HasGroup(groups, list[i]);
    var k :| 0 <= k < |groups| && InGroup(groups[k], list[i]);
    j := groups[k].selected;
  }

  /**
   Delivering to exactly the chosen entries that are still wanted is the right outcome. `wants` is
   taken when the publish starts, `now` when this list is reached: in between, connections may only
   have been shut.
   */
  lemma {:induction false} ChosenOutcome(groups: seq<Group>, list: seq<Sub>, marks: seq<bool>, wants: Sub -> bool, now: Sub -> bool, shut: nat -> bool)
    requires |marks| == |list| && Collected(groups, list, |list|, now)
    requires forall s :: now(s) ==> wants(s)
    requires forall s :: s in list && wants(s) && !now(s) ==> shut(s.conn)
    requires forall i :: 0 <= i < |list| && marks[i] ==> now(list[i]) && Chosen(groups, list[i], i)
    requires forall i :: 0 <= i < |list| && now(list[i]) && Chosen(groups, list[i], i) ==> marks[i] || shut(list[i].conn)
    ensures Outcome(list, marks, wants, shut)
  {
    forall i, j | 0 <= i < j < |list| && marks[i] && marks[j]
      ensures !SameGroup(list[i], list[j])
    {
      if SameGroup(list[i], list[j]) {
        ChosenOnce(groups, list, now, i, j);
      }
    }
    forall i | 0 <= i < |list| && wants(list[i]) && list[i].queue != []
      ensures Served(list, marks, shut, list[i])
    {
      if now(list[i]) {
        var j := ChosenExists(groups, list, now, i);
        assert marks[j] || shut(list[j].conn);
      }
    }
  }

  // ----- one delivery -----

  /** What deliveries of one publish change; `kicked` and `closed` are the callbacks owed. */
  datatype Net = Net(conns: Conns, kicked: seq<nat>, closed: seq<nat>, epoch: nat)

  function Close(w: Net, c: nat): Net
    requires c in w.conns
  {
    var k := w.conns[c];
    var owed := k.closes && k.closeSeen != w.epoch;
    if k.closed then w
    else w.(conns := w.conns[c := k.(closed := true, closeSeen := if owed then w.epoch else k.closeSeen)],
            closed := if owed then w.closed + [c] else w.closed)
  }

  function Write(w: Net, c: nat, f: Slice): Net
    requires c in w.conns
  {
    var k := w.conns[c];
    var owed := k.kicks && k.kickSeen != w.epoch;
    w.(conns := w.conns[c := k.(out := k.out + f, kickSeen := if owed then w.epoch else k.kickSeen)],
       kicked := if owed then w.kicked + [c] else w.kicked)
  }

  /** A frame goes out whole, or costs the connection; an empty one leaves no trace. */
  predicate Goes(w: Net, c: nat, f: Slice)
    requires c in w.conns
  {
    f == [] || |w.conns[c].out| + |f| <= MAX_PENDING
  }

  function Step(w: Net, c: nat, f: Slice): Net
    requires c in w.conns
  {
    if f == [] then w else if Goes(w, c, f) then Write(w, c, f) else Close(w, c)
  }

  // ----- what a publish has done so far, connection by connection -----

  /** `sent` is what the connection got since `was`, `due` the most it could have been sent. */
  ghost predicate Follows(was: Conn, now: Conn, sent: Slice, due: nat, kicked: bool, closed: bool, epoch: nat) {
    now == was.(out := was.out + sent, subCount := now.subCount, closed := now.closed, kickSeen := now.kickSeen, closeSeen := now.closeSeen) &&
    |sent| <= due &&
    (was.closed ==> now.closed && sent == []) &&
    (sent != [] ==> |now.out| <= MAX_PENDING) &&
    (now.closed && !was.closed ==> due > 0 && |was.out| + due > MAX_PENDING) &&
    (kicked <==> was.kicks && sent != []) &&
    (closed <==> was.closes && now.closed && !was.closed) &&
    (now.kickSeen == epoch <==> kicked) && now.kickSeen <= epoch &&
    (now.closeSeen == epoch <==> closed) && now.closeSeen <= epoch
  }

  ghost predicate FollowsAt(was: Conns, w: Net, frame: Sub -> Slice, subs: seq<Sub>, marks: seq<bool>, wants: Sub -> bool, c: nat)
    requires |marks| == |subs| && c in was && c in w.conns
  {
    Follows(was[c], w.conns[c], Sent(frame, subs, marks, c), Due(frame, subs, wants, c), c in w.kicked, c in w.closed, w.epoch)
  }

  ghost predicate Listed(w: Net, n: nat) {
    HashIndex.Distinct(w.kicked) && HashIndex.Distinct(w.closed) && |w.kicked| <= n && |w.closed| <= n &&
    (forall c :: c in w.kicked ==> c in w.conns) && (forall c :: c in w.closed ==> c in w.conns)
  }

  /** After the subscriptions `subs` were visited and those in `marks` delivered to. */
  ghost predicate Tracks(was: Conns, w: Net, frame: Sub -> Slice, subs: seq<Sub>, marks: seq<bool>, wants: Sub -> bool) {
    |marks| == |subs| && w.conns.Keys == was.Keys && Listed(w, |subs|) &&
    forall c {:trigger FollowsAt(was, w, frame, subs, marks, wants, c)} :: c in w.conns ==> FollowsAt(was, w, frame, subs, marks, wants, c)
  }

  lemma {:induction false} SentSnoc(frame: Sub -> Slice, subs: seq<Sub>, marks: seq<bool>, wants: Sub -> bool, s: Sub, hit: bool, c: nat)
    requires |marks| == |subs|
    ensures Sent(frame, subs + [s], marks + [hit], c) == Sent(frame, subs, marks, c) + if hit && s.conn == c then frame(s) else []
    ensures Due(frame, subs + [s], wants, c) == Due(frame, subs, wants, c) + if wants(s) && s.conn == c then |frame(s)| else 0
  {
    ConcatLast(subs, [s]);
    ConcatLast(marks, [hit]);
    assert subs + [s][..0] == subs && marks + [hit][..0] == marks;
  }

  /** The connection that is written to, or closed. */
  lemma {:induction false} FollowsStep(was: Conn, w: Net, c: nat, f: Slice, sent: Slice, due: nat)
    requires c in w.conns && !w.conns[c].closed
    requires Follows(was, w.conns[c], sent, due, c in w.kicked, c in w.closed, w.epoch)
    ensures var w' := Step(w, c, f);
      Follows(was, w'.conns[c], sent + if Goes(w, c, f) then f else [], due + |f|, c in w'.kicked, c in w'.closed, w.epoch)
  {
    assert (was.out + sent) + f == was.out + (sent + f);
    assert sent + [] == sent;
  }

  lemma {:induction false} StepElsewhere(w: Net, c: nat, f: Slice, e: nat)
    requires c in w.conns && e in w.conns && e != c
    ensures var w' := Step(w, c, f);
      w'.conns[e] == w.conns[e] && (e in w'.kicked <==> e in w.kicked) && (e in w'.closed <==> e in w.closed)
  {
  }

  lemma {:induction false} StepListed(w: Net, c: nat, f: Slice, n: nat)
    requires c in w.conns && Listed(w, n)
    requires w.conns[c].kickSeen != w.epoch ==> c !in w.kicked
    requires w.conns[c].closeSeen != w.epoch ==> c !in w.closed
    ensures Listed(Step(w, c, f), n + 1)
  {
  }

  lemma {:induction false} FollowsAtStep(was: Conns, w: Net, frame: Sub -> Slice, subs: seq<Sub>, marks: seq<bool>, wants: Sub -> bool, s: Sub, c: nat)
    requires |marks| == |subs| && c in was && c in w.conns
    requires FollowsAt(was, w, frame, subs, marks, wants, c)
    requires s.conn in w.conns && !w.conns[s.conn].closed && wants(s)
    ensures FollowsAt(was, Step(w, s.conn, frame(s)), frame, subs + [s], marks + [Goes(w, s.conn, frame(s))], wants, c)
  {
    SentSnoc(frame, subs, marks, wants, s, Goes(w, s.conn, frame(s)), c);
    if c == s.conn {
      FollowsStep(was[c], w, c, frame(s), Sent(frame, subs, marks, c), Due(frame, subs, wants, c));
    } else {
      StepElsewhere(w, s.conn, frame(s), c);
    }
  }

  lemma {:induction false} TrackListed(was: Conns, w: Net, frame: Sub -> Slice, subs: seq<Sub>, marks: seq<bool>, wants: Sub -> bool, c: nat, f: Slice)
    requires Tracks(was, w, frame, subs, marks, wants) && c in w.conns
    ensures Listed(Step(w, c, f), |subs| + 1) && Step(w, c, f).conns.Keys == was.Keys && Step(w, c, f).epoch == w.epoch
  {
    assert FollowsAt(was, w, frame, subs, marks, wants, c);
    StepListed(w, c, f, |subs|);
  }

  lemma {:induction false} TrackStep(was: Conns, w: Net, frame: Sub -> Slice, subs: seq<Sub>, marks: seq<bool>, wants: Sub -> bool, s: Sub)
    requires Tracks(was, w, frame, subs, marks, wants)
    requires s.conn in w.conns && !w.conns[s.conn].closed && wants(s)
    ensures Tracks(was, Step(w, s.conn, frame(s)), frame, subs + [s], marks + [Goes(w, s.conn, frame(s))], wants)
  {
    TrackListed(was, w, frame, subs, marks, wants, s.conn, frame(s));
    forall c | c in w.conns
      ensures FollowsAt(was, Step(w, s.conn, frame(s)), frame, subs + [s], marks + [Goes(w, s.conn, frame(s))], wants, c)
    {
      assert FollowsAt(was, w, frame, subs, marks, wants, c);
      FollowsAtStep(was, w, frame, subs, marks, wants, s, c);
    }
  }

  lemma {:induction false} TrackSkip(was: Conns, w: Net, frame: Sub -> Slice, subs: seq<Sub>, marks: seq<bool>, wants: Sub -> bool, s: Sub)
    requires Tracks(was, w, frame, subs, marks, wants)
    ensures Tracks(was, w, frame, subs + [s], marks + [false], wants)
  {
    forall c | c in w.conns
      ensures FollowsAt(was, w, frame, subs + [s], marks + [false], wants, c)
    {
      assert FollowsAt(was, w, frame, subs, marks, wants, c);
      SentSnoc(frame, subs, marks, wants, s, false, c);
    }
  }

  /** The entry counters are no part of this. */
  ghost predicate SameButCount(a: Conns, b: Conns) {
    a.Keys == b.Keys && forall c :: c in a ==> b[c] == a[c].(subCount := b[c].subCount)
  }

  lemma {:induction false} TrackRecount(was: Conns, w: Net, w': Net, frame: Sub -> Slice, subs: seq<Sub>, marks: seq<bool>, wants: Sub -> bool)
    requires Tracks(was, w, frame, subs, marks, wants)
    requires w' == w.(conns := w'.conns) && SameButCount(w.conns, w'.conns)
    ensures Tracks(was, w', frame, subs, marks, wants)
  {
    forall c | c in w'.conns
      ensures FollowsAt(was, w', frame, subs, marks, wants, c)
    {
      assert FollowsAt(was, w, frame, subs, marks, wants, c);
    }
  }

  /** The connections this publish has closed. */
  function Shut(was: Conns, now: Conns): nat -> bool {
    c => c in was && c in now && !was[c].closed && now[c].closed
  }

  // ----- entry counters -----

  /** The counters have enough left for the entries of `list`. */
  ghost predicate Backed(conns: Conns, total: nat, list: seq<Sub>) {
    |list| <= total && (forall s :: s in list ==> s.conn in conns) &&
    forall c :: c in conns ==> Count(list, c) <= conns[c].subCount
  }

  function OneMore(conns: Conns, c: nat): Conns
    requires c in conns
  {
    conns[c := conns[c].(subCount := conns[c].subCount + 1)]
  }

  /** `b` is `a` doubled any number of times. */
  ghost predicate Doubled(a: nat, b: nat) {
    b == a || (b > a && b % 2 == 0 && Doubled(a, b / 2))
  }

  lemma {:induction false} DoubledGrows(a: nat, b: nat)
    requires Doubled(a, b)
    ensures b >= a
  {
  }

  /** Replacing `list` by `list'` moved every connection's counter by as much. */
  ghost predicate Recounted(a: Conns, b: Conns, list: seq<Sub>, list': seq<Sub>) {
    SameButCount(a, b) && forall c :: c in a ==> b[c].subCount + Count(list, c) == a[c].subCount + Count(list', c)
  }

  // ----- the delivery loop -----

  datatype Scanned = Scanned(net: Net, hits: seq<bool>)

  /** The chosen entries that fit and whose connection is still open are delivered to, one after the other. */
  function Scan(w: Net, list: seq<Sub>, chosen: seq<bool>, frame: Sub -> Slice, fits: Sub -> bool): (r: Scanned)
    requires |chosen| == |list|
    ensures |r.hits| == |list|
    decreases |list|
  {
    if list == [] then Scanned(w, []) else
      var n := |list| - 1;
      var r, s := Scan(w, list[..n], chosen[..n], frame, fits), list[n];
      var one := ScanOne(r.net, s, chosen[n], frame(s), fits);
      Scanned(one.net, r.hits + one.hits)
  }

  function ScanOne(w: Net, s: Sub, chosen: bool, f: Slice, fits: Sub -> bool): (r: Scanned)
    ensures |r.hits| == 1
  {
    if chosen && Wanted(w.conns, fits, s) then Scanned(Step(w, s.conn, f), [Goes(w, s.conn, f)]) else Scanned(w, [false])
  }

  lemma {:induction false} ScanNext(w: Net, list: seq<Sub>, chosen: seq<bool>, frame: Sub -> Slice, fits: Sub -> bool, i: nat)
    requires |chosen| == |list| && i < |list|
    ensures var r := Scan(w, list[..i], chosen[..i], frame, fits);
      var one := ScanOne(r.net, list[i], chosen[i], frame(list[i]), fits);
      Scan(w, list[..i + 1], chosen[..i + 1], frame, fits) == Scanned(one.net, r.hits + one.hits) &&
      SameButNet(r.net.conns, one.net.conns) && |one.net.kicked| <= |r.net.kicked| + 1 && |one.net.closed| <= |r.net.closed| + 1
  {
    assert list[..i + 1][..i] == list[..i] && chosen[..i + 1][..i] == chosen[..i];
  }

  /** Deliveries close connections but neither open nor renumber them. */
  ghost predicate SameButNet(a: Conns, b: Conns) {
    a.Keys == b.Keys &&
    forall c :: c in a ==> b[c].subCount == a[c].subCount && b[c].sse == a[c].sse && (a[c].closed ==> b[c].closed)
  }

  lemma {:induction false} ScanKeeps(w: Net, list: seq<Sub>, chosen: seq<bool>, frame: Sub -> Slice, fits: Sub -> bool)
    requires |chosen| == |list|
    ensures SameButNet(w.conns, Scan(w, list, chosen, frame, fits).net.conns)
    ensures Scan(w, list, chosen, frame, fits).net.epoch == w.epoch
    decreases |list|
  {
    if list != [] {
      ScanKeeps(w, list[..|list| - 1], chosen[..|list| - 1], frame, fits);
    }
  }

  /** Exactly the chosen entries wanted at the start of the loop are delivered to, unless their connection gets closed. */
  lemma {:induction false} ScanDelivers(w: Net, list: seq<Sub>, chosen: seq<bool>, frame: Sub -> Slice, fits: Sub -> bool, i: nat)
    requires |chosen| == |list| && i < |list|
    ensures var r := Scan(w, list, chosen, frame, fits);
      (r.hits[i] ==> chosen[i] && Wanted(w.conns, fits, list[i])) &&
      (chosen[i] && Wanted(w.conns, fits, list[i]) ==> list[i].conn in r.net.conns && (r.hits[i] || r.net.conns[list[i].conn].closed))
    decreases |list|
  {
    var n := |list| - 1;
    ScanKeeps(w, list[..n], chosen[..n], frame, fits);
    ScanKeeps(w, list, chosen, frame, fits);
    if i < n {
      ScanDelivers(w, list[..n], chosen[..n], frame, fits, i);
    }
  }

  lemma {:induction false} ScanTracks(was: Conns, w: Net, frame: Sub -> Slice, subs: seq<Sub>, marks: seq<bool>, wants: Sub -> bool,
                                      list: seq<Sub>, chosen: seq<bool>, fits: Sub -> bool)
    requires |chosen| == |list| && Tracks(was, w, frame, subs, marks, wants)
    requires forall s :: Wanted(w.conns, fits, s) ==> wants(s)
    ensures var r := Scan(w, list, chosen, frame, fits);
      Tracks(was, r.net, frame, subs + list, marks + r.hits, wants)
    decreases |list|
  {
    if list == [] {
      assert subs + list == subs && marks + [] == marks;
    } else {
      var n := |list| - 1;
      var r := Scan(w, list[..n], chosen[..n], frame, fits);
      ScanTracks(was, w, frame, subs, marks, wants, list[..n], chosen[..n], fits);
      ScanKeeps(w, list[..n], chosen[..n], frame, fits);
      ScanTracksLast(was, r.net, frame, subs + list[..n], marks + r.hits, wants, list[n], chosen[n], fits);
      ScanNext(w, list, chosen, frame, fits, n);
      TakeNext(subs, list, n);
      assert list[..n + 1] == list && chosen[..n + 1] == chosen;
      AssocAny(marks, r.hits, ScanOne(r.net, list[n], chosen[n], frame(list[n]), fits).hits);
    }
  }

  lemma {:induction false} ScanTracksLast(was: Conns, w: Net, frame: Sub -> Slice, subs: seq<Sub>, marks: seq<bool>,
                                          wants: Sub -> bool, s: Sub, chosen: bool, fits: Sub -> bool)
    requires Tracks(was, w, frame, subs, marks, wants)
    requires Wanted(w.conns, fits, s) ==> wants(s)
    ensures var one := ScanOne(w, s, chosen, frame(s), fits);
      Tracks(was, one.net, frame, subs + [s], marks + one.hits, wants)
  {
    if chosen && Wanted(w.conns, fits, s) {
      TrackStep(was, w, frame, subs, marks, wants, s);
    } else {
      TrackSkip(was, w, frame, subs, marks, wants, s);
    }
  }

  lemma {:induction false} AssocAny<T>(a: seq<T>, b: seq<T>, c: seq<T>)
    ensures (a + b) + c == a + (b + c)
  {
  }

  lemma {:induction false} TakeNext<T>(before: seq<T>, list: seq<T>, i: nat)
    requires i < |list|
    ensures (before + list[..i]) + [list[i]] == before + list[..i + 1]
  {
  }

  /** What the code tests of an entry decides whether it fits; only the literal bucket skips the filter. */
  predicate Checks(config: Config, subject: Slice, checkFilter: bool, fits: Sub -> bool, s: Sub) {
    (fits(s) <==> Admits(config, subject, s)) && (checkFilter || Matches(s.subject, subject))
  }

  // ----- the code -----

  class Fanout {
    var conns: Conns
    var subCount: nat
    var epoch: nat
    var kickCap: nat
    var closeCap: nat
    var queueCap: nat
    var kicked: seq<nat>  // the used part of `kick_scratch`
    var closed: seq<nat>  // the used part of `close_scratch`
    const random: nat -> nat  // the values `queue_random` will return
    var draws: nat

    function State(): Net
      reads this
    {
      Net(conns, kicked, closed, epoch)
    }

    constructor (random: nat -> nat)
      ensures conns == map[] && subCount == 0 && epoch == 0 && kicked == [] && closed == []
      ensures kickCap == closeCap == queueCap == 0 && this.random == random
    {
      this.random := random;
      conns, subCount, epoch, draws := map[], 0, 0, 0;
      kickCap, closeCap, queueCap, kicked, closed := 0, 0, 0, [], [];
    }

    /** `mb_array_reserve`: double until it is enough. */
    method Reserve(cap: nat, needed: nat) returns (cap': nat)
      ensures cap' >= needed && Doubled(if cap == 0 && needed > 0 then 1 else cap, cap')
      ensures cap' > cap && cap' > 1 ==> cap' < 2 * needed
    {
      if cap >= needed {
        return cap;
      }
      cap' := if cap == 0 then 1 else cap;
      while cap' < needed
        invariant cap' > 0 && Doubled(if cap == 0 then 1 else cap, cap')
        invariant cap' > cap && cap' > 1 ==> cap' < 2 * needed
        decreases needed - cap'
      {
        DoubledGrows(if cap == 0 then 1 else cap, cap');
        cap' := cap' * 2;
      }
    }

    /** `ensure_publish_capacity`. */
    method EnsurePublishCapacity(needed: nat)
      modifies this`kickCap, this`closeCap, this`queueCap
      ensures kickCap >= needed && closeCap >= needed && queueCap >= needed
      ensures kickCap >= old(kickCap) && closeCap >= old(closeCap) && queueCap >= old(queueCap)
    {
      kickCap := Reserve(kickCap, needed);
      closeCap := Reserve(closeCap, needed);
      queueCap := Reserve(queueCap, needed);
    }

    /** Room for one more publish target, and one more entry of `c`. */
    method NoteSubAdded(c: nat)
      requires c in conns
      modifies this`conns, this`subCount, this`kickCap, this`closeCap, this`queueCap
      ensures subCount == old(subCount) + 1 && subCount <= kickCap && subCount <= closeCap && subCount <= queueCap
      ensures conns == OneMore(old(conns), c)
    {
      EnsurePublishCapacity(subCount + 1);
      subCount := subCount + 1;
      conns := conns[c := conns[c].(subCount := conns[c].subCount + 1)];
    }

    /** A publish begins: nobody has been kicked or closed in its epoch. */
    method NextEpoch()
      modifies this`epoch, this`kicked, this`closed
      ensures epoch == old(epoch) + 1 && kicked == [] && closed == []
    {
      epoch := epoch + 1;
      kicked, closed := [], [];
    }

    /** `sub_deliverable`. */
    method SubDeliverable(lvc: Lvc, sub: Sub, subject: Slice, checkFilter: bool) returns (b: bool)
      requires sub.conn in conns
      ensures b <==> !conns[sub.conn].closed && (checkFilter ==> Matches(sub.subject, subject)) &&
                     (sub.lvc ==> SubjectEnabled(lvc.config, subject))
    {
      if conns[sub.conn].closed {
        return false;
      }
      if checkFilter {
        var m := SubjectMatches(sub.subject, subject);
        if !m {
          return false;
        }
      }
      if !sub.lvc {
        return true;
      }
      b := lvc.FilterMatches(subject, false);
    }

    /** `queue_random`: any stream of numbers. */
    method QueueRandom() returns (x: nat)
      modifies this`draws
      ensures x == random(old(draws)) && draws == old(draws) + 1
    {
      x := random(draws);
      draws := draws + 1;
    }

    /**
     `collect_queue_delivery`: `k` is the group of `sub`, whose member so far may be replaced. The
     caller's `requires` is what makes the check against `queue_cap` succeed.
     */
    method CollectQueueDelivery(groups: seq<Group>, sub: Sub, index: nat) returns (groups': seq<Group>, k: nat)
      requires |groups| < queueCap
      modifies this`draws
      ensures Joined(groups, groups', sub, index, k)
      ensures k == |groups| <==> !HasGroup(groups, sub)
    {
      k := 0;
      while k < |groups| && !InGroup(groups[k], sub)
        invariant k <= |groups|
        invariant forall l :: 0 <= l < k ==> !InGroup(groups[l], sub)
      {
        k := k + 1;
      }
      groups' := if k == |groups| then groups + [Group(sub.subject, sub.queue, sub.lvc, index, 0)] else groups;
      var seen := groups'[k].seen + 1;
      groups' := groups'[k := groups'[k].(seen := seen)];
      var take := seen == 1;
      if !take {
        var x := QueueRandom();
        take := x % seen == 0;
      }
      if take {
        groups' := groups'[k := groups'[k].(selected := index)];
      }
    }

    /** `queue_selected`. */
    method QueueSelected(groups: seq<Group>, sub: Sub, index: nat) returns (b: bool)
      ensures b <==> Chosen(groups, sub, index)
    {
      if |sub.queue| == 0 {
        return true;
      }
      for k := 0 to |groups|
        invariant forall l :: 0 <= l < k ==> !(groups[l].selected == index && InGroup(groups[l], sub))
      {
        if groups[k].selected == index && InGroup(groups[k], sub) {
          return true;
        }
      }
      b := false;
    }

    /** The first pass of `deliver_matching_list`: choose a member for every matching queue group. */
    method Collect(lvc: Lvc, list: seq<Sub>, subject: Slice, checkFilter: bool, ghost fits: Sub -> bool, ghost now: Sub -> bool)
      returns (groups: seq<Group>)
      requires forall s :: s in list ==> s.conn in conns && Checks(lvc.config, subject, checkFilter, fits, s)
      requires forall s :: s in list ==> (now(s) <==> Wanted(conns, fits, s))
      requires |list| <= queueCap
      modifies this`draws
      ensures Collected(groups, list, |list|, now)
    {
      groups := [];
      for i := 0 to |list|
        invariant Collected(groups, list, i, now)
      {
        var sub := list[i];
        assert sub in list && Checks(lvc.config, subject, checkFilter, fits, sub);
        var wanted := SubDeliverable(lvc, sub, subject, checkFilter);
        if |sub.queue| == 0 || !wanted {
          CollectedSkip(groups, list, i, now);
        } else {
          ghost var was := groups;
          ghost var k: nat;
          groups, k := CollectQueueDelivery(groups, sub, i);
          CollectedStep(was, groups, list, i, now, k);
        }
      }
    }

    /** The connection's own `msg_len_fn`, or the MSG one. */
    method MeasureFrame(sse: bool, sub: Sub, m: Post) returns (n: nat)
      ensures n == |Frame(sse, sub, m)|
    {
      var prefix := if sub.lvc then LVC_PREFIX else [];
      if sse {
        n := Frames.SseMsgLen(prefix, m.subject, m.payload);
      } else {
        n := Frames.MsgFrameLen(|prefix|, m.subject, sub.sid, m.reply, m.payload);
      }
    }

    /** The connection's own `write_msg_fn`, or the MSG one. */
    method WriteFrame(sse: bool, out: Slice, sub: Sub, m: Post) returns (out': Slice)
      ensures out' == out + Frame(sse, sub, m)
    {
      var prefix := if sub.lvc then LVC_PREFIX else [];
      var buf := new Frames.Buf();
      buf.Append(out);
      if sse {
        Frames.SseWriteMsg(buf, prefix, m.subject, m.payload);
      } else {
        Frames.WriteMsg(buf, prefix, m.subject, sub.sid, m.reply, m.payload);
      }
      out' := buf.data;
      assert [] + out == out;
    }

    /** `queue_conn_close`. */
    method QueueConnClose(c: nat)
      requires c in conns && |closed| < closeCap
      modifies this`conns, this`closed
      ensures State() == Close(old(State()), c)
    {
      var k := conns[c];
      if k.closed {
        return;
      }
      conns := conns[c := k.(closed := true)];
      if !k.closes || k.closeSeen == epoch {
        return;
      }
      conns := conns[c := conns[c].(closeSeen := epoch)];
      closed := closed + [c];
    }

    /** The end of `deliver_to_sub`: the frame is in the buffer, and the connection is kicked once. */
    method QueueFrame(c: nat, out: Slice, ghost f: Slice)
      requires c in conns && |kicked| < kickCap && out == conns[c].out + f
      modifies this`conns, this`kicked
      ensures State() == Write(old(State()), c, f)
    {
      var k := conns[c];
      conns := conns[c := k.(out := out)];
      if k.kicks && k.kickSeen != epoch {
        conns := conns[c := conns[c].(kickSeen := epoch)];
        kicked := kicked + [c];
      }
    }

    /** `deliver_to_sub`: whether the subscription's `delivered` goes up. Neither scratch array is full. */
    method DeliverToSub(sub: Sub, m: Post) returns (hit: bool)
      requires sub.conn in conns && |kicked| < kickCap && |closed| < closeCap
      modifies this`conns, this`kicked, this`closed
      ensures var f := Frame(old(conns)[sub.conn].sse, sub, m);
        hit == Goes(old(State()), sub.conn, f) && State() == Step(old(State()), sub.conn, f)
    {
      var c := sub.conn;
      var k := conns[c];
      var n := MeasureFrame(k.sse, sub, m);
      if n == 0 {
        return true;
      }
      if |k.out| > MAX_PENDING || n > MAX_PENDING - |k.out| {
        QueueConnClose(c);
        return false;
      }
      var out := WriteFrame(k.sse, k.out, sub, m);
      QueueFrame(c, out, Frame(k.sse, sub, m));
      hit := true;
    }

    /** The body of the delivery loop, for entry number `i` of its list. */
    method Visit(lvc: Lvc, sub: Sub, i: nat, m: Post, checkFilter: bool, groups: seq<Group>,
                 ghost framing: Framing, ghost fits: Sub -> bool)
      returns (hit: bool)
      requires sub.conn in conns && Checks(lvc.config, m.subject, checkFilter, fits, sub)
      requires framing == Frame
      requires |kicked| < kickCap && |closed| < closeCap
      modifies this`conns, this`kicked, this`closed
      ensures Scanned(State(), [hit]) == ScanOne(old(State()), sub, Chosen(groups, sub, i), framing(old(conns)[sub.conn].sse, sub, m), fits)
      ensures conns.Keys == old(conns).Keys && |kicked| <= |old(kicked)| + 1 && |closed| <= |old(closed)| + 1
    {
      ScanOneKeeps(State(), sub, Chosen(groups, sub, i), framing(conns[sub.conn].sse, sub, m), fits);
      var wanted := SubDeliverable(lvc, sub, m.subject, checkFilter);
      var selected := QueueSelected(groups, sub, i);
      if !wanted || !selected {
        return false;
      }
      assert framing(conns[sub.conn].sse, sub, m) == Frame(conns[sub.conn].sse, sub, m);
      hit := DeliverToSub(sub, m);
    }

    /**
     The second pass of `deliver_matching_list`: deliver to plain subscriptions and to the chosen
     queue members.
     */
    method DeliverChosen(lvc: Lvc, list: seq<Sub>, m: Post, checkFilter: bool, groups: seq<Group>,
                         ghost chosen: seq<bool>, ghost framing: Framing, ghost fits: Sub -> bool, ghost scan: nat -> Scanned)
      returns (list': seq<Sub>)
      requires forall s {:trigger Checks(lvc.config, m.subject, checkFilter, fits, s)} ::
        s in list ==> s.conn in conns && Checks(lvc.config, m.subject, checkFilter, fits, s)
      requires framing == Frame
      requires |chosen| == |list| && forall i :: 0 <= i < |list| ==> (chosen[i] <==> Chosen(groups, list[i], i))
      requires scan(0) == Scanned(State(), [])
      requires forall i :: 0 <= i < |list| ==> Scans(scan, list, chosen, framing, m, fits, i)
      requires |kicked| + |list| <= kickCap && |closed| + |list| <= closeCap
      modifies this`conns, this`kicked, this`closed
      ensures State() == scan(|list|).net && |scan(|list|).hits| == |list| && list' == Bump(list, scan(|list|).hits)
    {
      list' := list;
      ghost var net, hits := State(), [];
      for i := 0 to |list|
        invariant |hits| == i && PartlyBumped(list, hits, list') && Scanned(State(), hits) == scan(i)
        invariant conns.Keys == net.conns.Keys && |kicked| <= |net.kicked| + i && |closed| <= |net.closed| + i
      {
        var sub := list'[i];
        assert sub == list[i] && sub in list && Checks(lvc.config, m.subject, checkFilter, fits, sub);
        assert Scans(scan, list, chosen, framing, m, fits, i);
        var hit := Visit(lvc, sub, i, m, checkFilter, groups, framing, fits);
        BumpNext(list, hits, list', hit);
        if hit {
          list' := list'[i := sub.(delivered := sub.delivered + 1)];
        }
        hits := hits + [hit];
      }
      BumpDone(list, hits, list');
    }

    /** `note_sub_removed`. */
    method NoteSubRemoved(c: nat)
      requires c in conns
      modifies this`conns, this`subCount
      ensures subCount == if old(subCount) > 0 then old(subCount) - 1 else 0
      ensures var k := old(conns)[c];
        conns == old(conns)[c := k.(subCount := if k.subCount > 0 then k.subCount - 1 else 0)]
    {
      if subCount > 0 {
        subCount := subCount - 1;
      }
      if conns[c].subCount > 0 {
        conns := conns[c := conns[c].(subCount := conns[c].subCount - 1)];
      }
    }

    /**
     The loop of `remove_for_conn_from_list`, `unsubscribe_from_list` and `remove_delivered_max`,
     which differ in what they do with an entry.
     */
    method SweepList(list: seq<Sub>, rule: Rule) returns (list': seq<Sub>)
      requires Backed(conns, subCount, list) && KeepsIdentity(rule)
      modifies this`conns, this`subCount
      ensures multiset(list') == multiset(Sweep(list, rule))
      ensures Backed(conns, subCount, list') && Recounted(old(conns), conns, list, list')
      ensures subCount + |list| == old(subCount) + |list'|
    {
      list' := list;
      var i: nat := 0;
      ghost var start, total := conns, subCount;
      SweepingStart(list, rule, start, total);
      while i < |list'|
        invariant Sweeping(list, rule, start, total, list', i, conns, subCount)
        decreases |list'| - i
      {
        list', i := SweepOne(list', i, rule, list, start, total);
      }
      SweepingEnd(list, rule, start, total, list', i, conns, subCount);
    }

    /** The body of that loop: an entry that goes makes room for the last one, which is looked at next. */
    method SweepOne(cur: seq<Sub>, i: nat, rule: Rule, ghost list: seq<Sub>, ghost start: Conns, ghost total: nat)
      returns (cur': seq<Sub>, i': nat)
      requires Sweeping(list, rule, start, total, cur, i, conns, subCount) && i < |cur| && KeepsIdentity(rule)
      modifies this`conns, this`subCount
      ensures Sweeping(list, rule, start, total, cur', i', conns, subCount) && |cur'| - i' < |cur| - i
    {
      match rule(cur[i])
      case None =>
        SweepingDrop(list, rule, start, total, cur, i, conns, subCount);
        NoteSubRemoved(cur[i].conn);
        cur', i' := HashIndex.SwapRemove(cur, i), i;
      case Some(s) =>
        SweepingKeep(list, rule, start, total, cur, i, conns, subCount);
        cur', i' := cur[i := s], i + 1;
    }

    /** One bucket of an array: swept, and removed if that empties it. */
    method SweepBucket(b: Buckets, i: nat, rule: Rule, ghost rows: seq<seq<Sub>>, ghost conns0: Conns, ghost total0: nat)
      returns (removed: bool)
      requires b.Valid() && KeepsIdentity(rule) && i < |b.rows|
      requires SweepingRows(rows, rule, conns0, total0, b.rows, i, conns, subCount)
      modifies this`conns, this`subCount, b`rows, b.index`keys, b.index`at, b.index.cells
      ensures b.Valid() && b.index.cells == old(b.index.cells)
      ensures SweepingRows(rows, rule, conns0, total0, b.rows, if removed then i else i + 1, conns, subCount)
      ensures |b.rows| == |old(b.rows)| - if removed then 1 else 0
    {
      RowBacked(conns, subCount, b.rows, i);
      ghost var was, wasCount := conns, subCount;
      var row := SweepList(b.rows[i], rule);
      SweepPlace(b.rows[i], row, rule, b.At(b.index.keys[i]));
      SweepingRow(rows, rule, conns0, total0, b.rows, i, was, wasCount, row, conns, subCount);
      removed := b.SetRow(i, row);
    }

    /** `mb_router_unsubscribe` and `mb_router_remove_all_for` on one bucket array: emptied buckets go. */
    method SweepBuckets(b: Buckets, rule: Rule)
      requires b.Valid() && Backed(conns, subCount, Flat(b.rows)) && KeepsIdentity(rule)
      modifies this`conns, this`subCount, b`rows, b.index`keys, b.index`at, b.index.cells
      ensures b.Valid() && b.index.cells == old(b.index.cells)
      ensures multiset(Flat(b.rows)) == multiset(Sweep(Flat(old(b.rows)), rule))
      ensures RowsCounted(old(b.rows), old(conns), old(subCount), b.rows, conns, subCount)
      ensures [] !in b.rows
    {
      ghost var rows := b.rows;
      var i := 0;
      SweepingRowsStart(rows, rule, conns, subCount);
      while i < |b.rows|
        invariant b.Valid() && b.index.cells == old(b.index.cells)
        invariant SweepingRows(rows, rule, old(conns), old(subCount), b.rows, i, conns, subCount)
        decreases |b.rows| - i
      {
        var removed := SweepBucket(b, i, rule, rows, old(conns), old(subCount));
        if !removed {
          i := i + 1;
        }
      }
      SweepingRowsEnd(rows, rule, old(conns), old(subCount), b.rows, i, conns, subCount);
    }

    /** Both passes of `deliver_matching_list`. */
    method DeliverPasses(lvc: Lvc, list: seq<Sub>, m: Post, checkFilter: bool,
                         ghost was: Conns, ghost framing: Framing, ghost frame: Sub -> Slice,
                         ghost fits: Sub -> bool, ghost wants: Sub -> bool, ghost subs: seq<Sub>, ghost marks: seq<bool>)
      returns (list': seq<Sub>, ghost hits: seq<bool>)
      requires framing == Frame && FramesOf(was, framing, m, frame, list)
      requires forall s :: s in list ==> Checks(lvc.config, m.subject, checkFilter, fits, s)
      requires forall s :: wants(s) <==> Wanted(was, fits, s)
      requires Tracks(was, State(), frame, subs, marks, wants)
      requires |subs| + |list| <= kickCap && |subs| + |list| <= closeCap && |list| <= queueCap
      modifies this`conns, this`kicked, this`closed, this`draws
      ensures Passed(was, old(State()), State(), frame, subs, marks, wants, list, hits) && list' == Bump(list, hits)
      ensures SameButNet(old(conns), conns)
    {
      ghost var w := State();
      ghost var now := (s: Sub) => Wanted(w.conns, fits, s);
      TracksSse(was, w, framing, m, frame, subs, marks, wants, list);
      var groups := Collect(lvc, list, m.subject, checkFilter, fits, now);
      ghost var chosen := seq(|list|, i requires 0 <= i < |list| => Chosen(groups, list[i], i));
      ghost var scan := (i: nat) => if i <= |list| then Scan(w, list[..i], chosen[..i], frame, fits) else Scanned(w, []);
      ScansHold(w, list, chosen, framing, m, frame, fits, scan);
      list' := DeliverChosen(lvc, list, m, checkFilter, groups, chosen, framing, fits, scan);
      hits := scan(|list|).hits;
      MatchingOutcome(was, w, frame, subs, marks, wants, list, groups, chosen, fits, now, scan(|list|));
    }

    /**
     `deliver_matching_list`. `was` is the state when the publish started, `subs` and `marks` what its
     earlier lists visited and delivered to; the failure exits of the code cannot be reached.
     */
    method DeliverMatchingList(lvc: Lvc, list: seq<Sub>, m: Post, checkFilter: bool,
                               ghost was: Conns, ghost framing: Framing, ghost frame: Sub -> Slice,
                               ghost fits: Sub -> bool, ghost wants: Sub -> bool, ghost subs: seq<Sub>, ghost marks: seq<bool>)
      returns (list': seq<Sub>, ghost hits: seq<bool>)
      requires Backed(conns, subCount, list)
      requires framing == Frame && FramesOf(was, framing, m, frame, list)
      requires forall s :: s in list ==> Checks(lvc.config, m.subject, checkFilter, fits, s)
      requires forall s :: wants(s) <==> Wanted(was, fits, s)
      requires Tracks(was, State(), frame, subs, marks, wants)
      requires |subs| + |list| <= kickCap && |subs| + |list| <= closeCap && |list| <= queueCap
      modifies this`conns, this`kicked, this`closed, this`draws, this`subCount
      ensures Passed(was, old(State()), State(), frame, subs, marks, wants, list, hits)
      ensures multiset(list') == multiset(Sweep(Bump(list, hits), EXPIRE))
      ensures Balanced(old(conns), conns, list, list') && subCount + |list| == old(subCount) + |list'|
    {
      ghost var w := State();
      list', hits := DeliverPasses(lvc, list, m, checkFilter, was, framing, frame, fits, wants, subs, marks);
      ghost var mid := State();
      BumpBacked(w.conns, mid.conns, subCount, list, hits);
      list' := SweepList(list', EXPIRE);
      BalancedAfter(w.conns, mid.conns, conns, list, Bump(list, hits), list');
      PassedRecount(was, w, mid, State(), frame, subs, marks, wants, list, hits);
    }

    /** The next list of a publish, whose earlier lists `subs` have become `subs'`. */
    method DeliverNext(lvc: Lvc, list: seq<Sub>, m: Post, checkFilter: bool,
                       ghost was: Conns, ghost framing: Framing, ghost frame: Sub -> Slice, ghost fits: Sub -> bool, ghost wants: Sub -> bool,
                       ghost start: Conns, ghost total: nat, ghost subs: seq<Sub>, ghost marks: seq<bool>, ghost subs': seq<Sub>)
      returns (list': seq<Sub>, ghost hits: seq<bool>)
      requires Backed(start, total, subs + list) && Balanced(start, conns, subs, subs') && subCount + |subs| == total + |subs'|
      requires framing == Frame && FramesOf(was, framing, m, frame, list)
      requires forall s :: s in list ==> Checks(lvc.config, m.subject, checkFilter, fits, s)
      requires forall s :: wants(s) <==> Wanted(was, fits, s)
      requires Tracks(was, State(), frame, subs, marks, wants)
      requires var n := |subs + list|; n <= kickCap && n <= closeCap && n <= queueCap
      modifies this`conns, this`kicked, this`closed, this`draws, this`subCount
      ensures Passed(was, old(State()), State(), frame, subs, marks, wants, list, hits) && Settled(list, hits, list')
      ensures Balanced(start, conns, subs + list, subs' + list') && subCount + |subs + list| == total + |subs' + list'|
    {
      ghost var mid := conns;
      NextBacked(start, conns, total, subCount, subs, subs', list);
      list', hits := DeliverMatchingList(lvc, list, m, checkFilter, was, framing, frame, fits, wants, subs, marks);
      BalancedJoin(start, mid, conns, subs, subs', list, list');
    }

    /** The first list of a publish: the literal bucket, whose filters need no check. */
    method DeliverFirst(lvc: Lvc, a: seq<Sub>, m: Post,
                        ghost was: Conns, ghost framing: Framing, ghost frame: Sub -> Slice, ghost fits: Sub -> bool, ghost wants: Sub -> bool)
      returns (a': seq<Sub>, ghost ha: seq<bool>)
      requires Backed(conns, subCount, a) && framing == Frame && FramesOf(was, framing, m, frame, a)
      requires forall s :: s in a ==> Checks(lvc.config, m.subject, false, fits, s)
      requires forall s :: wants(s) <==> Wanted(was, fits, s)
      requires Tracks(was, State(), frame, [], [], wants)
      requires |a| <= kickCap && |a| <= closeCap && |a| <= queueCap
      modifies this`conns, this`kicked, this`closed, this`draws, this`subCount
      ensures Round(was, conns, wants, a, ha, a') && Tracks(was, State(), frame, a, ha, wants) && epoch == old(epoch)
      ensures Balanced(old(conns), conns, a, a') && subCount + |a| == old(subCount) + |a'|
    {
      BalancedStart(conns, a);
      assert [] + a == a;
      a', ha := DeliverNext(lvc, a, m, false, was, framing, frame, fits, wants, conns, subCount, [], [], []);
      assert [] + ha == ha && [] + a' == a';
    }

    /** The literal bucket and then the first-token bucket. */
    method DeliverTwo(lvc: Lvc, a: seq<Sub>, b: seq<Sub>, m: Post,
                      ghost was: Conns, ghost framing: Framing, ghost frame: Sub -> Slice, ghost fits: Sub -> bool, ghost wants: Sub -> bool)
      returns (a': seq<Sub>, b': seq<Sub>, ghost ha: seq<bool>, ghost hb: seq<bool>)
      requires Backed(conns, subCount, a + b)
      requires framing == Frame && FramesOf(was, framing, m, frame, a) && FramesOf(was, framing, m, frame, b)
      requires forall s :: s in a ==> Checks(lvc.config, m.subject, false, fits, s)
      requires forall s :: s in b ==> Checks(lvc.config, m.subject, true, fits, s)
      requires forall s :: wants(s) <==> Wanted(was, fits, s)
      requires Tracks(was, State(), frame, [], [], wants)
      requires var n := |a + b|; n <= kickCap && n <= closeCap && n <= queueCap
      modifies this`conns, this`kicked, this`closed, this`draws, this`subCount
      ensures Rounds(was, conns, wants, a, ha, a', b, hb, b')
      ensures Tracks(was, State(), frame, a + b, ha + hb, wants) && epoch == old(epoch)
      ensures Balanced(old(conns), conns, a + b, a' + b') && subCount + |a + b| == old(subCount) + |a' + b'|
    {
      ghost var start, total := conns, subCount;
      BackedPart(conns, subCount, a, b);
      a', ha := DeliverFirst(lvc, a, m, was, framing, frame, fits, wants);
      ghost var mid := conns;
      b', hb := DeliverNext(lvc, b, m, true, was, framing, frame, fits, wants, start, total, a, ha, a');
      RoundLater(was, mid, conns, wants, a, ha, a');
    }

    /**
     The lists of one publish in turn: the two buckets and the global wildcards. A bucket that does
     not exist is an empty list.
     */
    method DeliverThree(lvc: Lvc, a: seq<Sub>, b: seq<Sub>, g: seq<Sub>, m: Post,
                        ghost was: Conns, ghost framing: Framing, ghost frame: Sub -> Slice, ghost fits: Sub -> bool, ghost wants: Sub -> bool)
      returns (a': seq<Sub>, b': seq<Sub>, g': seq<Sub>, ghost ha: seq<bool>, ghost hb: seq<bool>, ghost hg: seq<bool>)
      requires Backed(conns, subCount, a + b) && Backed(conns, subCount, (a + b) + g)
      requires framing == Frame && FramesOf(was, framing, m, frame, a) && FramesOf(was, framing, m, frame, b) && FramesOf(was, framing, m, frame, g)
      requires forall s :: s in a ==> Checks(lvc.config, m.subject, false, fits, s)
      requires forall s :: s in b ==> Checks(lvc.config, m.subject, true, fits, s)
      requires forall s :: s in g ==> Checks(lvc.config, m.subject, true, fits, s)
      requires forall s :: wants(s) <==> Wanted(was, fits, s)
      requires Tracks(was, State(), frame, [], [], wants)
      requires var n := |(a + b) + g|; n <= kickCap && n <= closeCap && n <= queueCap
      modifies this`conns, this`kicked, this`closed, this`draws, this`subCount
      ensures Rounds(was, conns, wants, a, ha, a', b, hb, b') && Round(was, conns, wants, g, hg, g')
      ensures Tracks(was, State(), frame, (a + b) + g, (ha + hb) + hg, wants) && epoch == old(epoch)
      ensures Balanced(old(conns), conns, (a + b) + g, (a' + b') + g')
      ensures subCount + |(a + b) + g| == old(subCount) + |(a' + b') + g'|
    {
      ghost var start, total := conns, subCount;
      a', b', ha, hb := DeliverTwo(lvc, a, b, m, was, framing, frame, fits, wants);
      ghost var mid := conns;
      g', hg := DeliverNext(lvc, g, m, true, was, framing, frame, fits, wants, start, total, a + b, ha + hb, a' + b');
      RoundsLater(was, mid, conns, wants, a, ha, a', b, hb, b');
    }
  }

  ghost predicate Rounds(was: Conns, now: Conns, wants: Sub -> bool, a: seq<Sub>, ha: seq<bool>, a': seq<Sub>, b: seq<Sub>, hb: seq<bool>, b': seq<Sub>) {
    Round(was, now, wants, a, ha, a') && Round(was, now, wants, b, hb, b')
  }

  lemma {:induction false} RoundsLater(was: Conns, mid: Conns, now: Conns, wants: Sub -> bool,
                                       a: seq<Sub>, ha: seq<bool>, a': seq<Sub>, b: seq<Sub>, hb: seq<bool>, b': seq<Sub>)
    requires Rounds(was, mid, wants, a, ha, a', b, hb, b')
    requires forall c :: Shut(was, mid)(c) ==> Shut(was, now)(c)
    ensures Rounds(was, now, wants, a, ha, a', b, hb, b')
  {
    RoundLater(was, mid, now, wants, a, ha, a');
    RoundLater(was, mid, now, wants, b, hb, b');
  }

  lemma {:induction false} BalancedStart(conns: Conns, a: seq<Sub>)
    ensures Balanced(conns, conns, [], []) && [] + a == a
  {
  }

  lemma {:induction false} RoundLater(was: Conns, mid: Conns, now: Conns, wants: Sub -> bool, list: seq<Sub>, hits: seq<bool>, list': seq<Sub>)
    requires Round(was, mid, wants, list, hits, list')
    requires forall c :: Shut(was, mid)(c) ==> Shut(was, now)(c)
    ensures Round(was, now, wants, list, hits, list')
  {
    OutcomeLater(list, hits, wants, Shut(was, mid), Shut(was, now));
  }

  /** The list that is left after a publish with these marks. */
  ghost predicate Settled(list: seq<Sub>, hits: seq<bool>, list': seq<Sub>) {
    |hits| == |list| && multiset(list') == multiset(Sweep(Bump(list, hits), EXPIRE))
  }

  ghost predicate Round(was: Conns, now: Conns, wants: Sub -> bool, list: seq<Sub>, hits: seq<bool>, list': seq<Sub>) {
    Settled(list, hits, list') && Outcome(list, hits, wants, Shut(was, now))
  }

  lemma {:induction false} BackedPart(conns: Conns, total: nat, a: seq<Sub>, b: seq<Sub>)
    requires Backed(conns, total, a + b)
    ensures Backed(conns, total, a)
  {
    forall c: nat
      ensures Count(a + b, c) == Count(a, c) + Count(b, c)
    {
      CountConcat(a, b, c);
    }
    assert forall s :: s in a ==> s in a + b;
  }

  /** What the first part leaves is enough for the next one. */
  lemma {:induction false} NextBacked(c0: Conns, c1: Conns, t0: nat, t1: nat, a: seq<Sub>, a': seq<Sub>, b: seq<Sub>)
    requires Backed(c0, t0, a + b) && Balanced(c0, c1, a, a') && t1 + |a| == t0 + |a'|
    ensures Backed(c1, t1, b)
  {
    forall c: nat
      ensures Count(a + b, c) == Count(a, c) + Count(b, c)
    {
      CountConcat(a, b, c);
    }
    assert forall s :: s in b ==> s in a + b;
  }

  lemma {:induction false} BalancedJoin(c0: Conns, c1: Conns, c2: Conns, a: seq<Sub>, a': seq<Sub>, b: seq<Sub>, b': seq<Sub>)
    requires Balanced(c0, c1, a, a') && Balanced(c1, c2, b, b')
    ensures Balanced(c0, c2, a + b, a' + b')
  {
    forall c: nat
      ensures Count(a + b, c) == Count(a, c) + Count(b, c) && Count(a' + b', c) == Count(a', c) + Count(b', c)
    {
      CountConcat(a, b, c);
      CountConcat(a', b', c);
    }
  }

  /**
   What one list adds to a publish that started at `was` and had come to `w`: the outcome is right
   for this list, and connections are only ever closed.
   */
  ghost predicate Passed(was: Conns, w: Net, w': Net, frame: Sub -> Slice, subs: seq<Sub>, marks: seq<bool>, wants: Sub -> bool,
                         list: seq<Sub>, hits: seq<bool>) {
    |hits| == |list| && w'.epoch == w.epoch && Tracks(was, w', frame, subs + list, marks + hits, wants) &&
    Outcome(list, hits, wants, Shut(was, w'.conns)) && SameButNetCount(w.conns, w'.conns) &&
    forall c :: Shut(was, w.conns)(c) ==> Shut(was, w'.conns)(c)
  }

  ghost predicate SameButNetCount(a: Conns, b: Conns) {
    a.Keys == b.Keys && forall c :: c in a ==> b[c].sse == a[c].sse && (a[c].closed ==> b[c].closed)
  }

  lemma {:induction false} PassedRecount(was: Conns, w: Net, mid: Net, w': Net, frame: Sub -> Slice, subs: seq<Sub>, marks: seq<bool>,
                                         wants: Sub -> bool, list: seq<Sub>, hits: seq<bool>)
    requires Passed(was, w, mid, frame, subs, marks, wants, list, hits)
    requires w' == mid.(conns := w'.conns) && SameButCount(mid.conns, w'.conns)
    ensures Passed(was, w, w', frame, subs, marks, wants, list, hits)
  {
    TrackRecount(was, mid, w', frame, subs + list, marks + hits, wants);
    OutcomeLater(list, hits, wants, Shut(was, mid.conns), Shut(was, w'.conns));
  }

  ghost predicate FramesOf(conns: Conns, framing: Framing, m: Post, frame: Sub -> Slice, list: seq<Sub>) {
    forall s :: s in list ==> s.conn in conns && frame(s) == framing(conns[s.conn].sse, s, m)
  }

  /** Replacing `list` by `list'` moved every connection's counter by as much, whatever else happened to it. */
  ghost predicate Balanced(a: Conns, b: Conns, list: seq<Sub>, list': seq<Sub>) {
    a.Keys == b.Keys && forall c :: c in a ==> b[c].subCount + Count(list, c) == a[c].subCount + Count(list', c)
  }

  lemma {:induction false} TracksSse(was: Conns, w: Net, framing: Framing, m: Post, frame: Sub -> Slice,
                                     subs: seq<Sub>, marks: seq<bool>, wants: Sub -> bool, list: seq<Sub>)
    requires Tracks(was, w, frame, subs, marks, wants) && FramesOf(was, framing, m, frame, list)
    ensures FramesOf(w.conns, framing, m, frame, list)
    ensures |w.kicked| <= |subs| && |w.closed| <= |subs|
  {
    forall s | s in list
      ensures s.conn in w.conns && w.conns[s.conn].sse == was[s.conn].sse
    {
      assert FollowsAt(was, w, frame, subs, marks, wants, s.conn);
    }
  }

  lemma {:induction false} ScansHold(w: Net, list: seq<Sub>, chosen: seq<bool>, framing: Framing, m: Post,
                                     frame: Sub -> Slice, fits: Sub -> bool, scan: nat -> Scanned)
    requires |chosen| == |list| && FramesOf(w.conns, framing, m, frame, list)
    requires forall i :: 0 <= i <= |list| ==> scan(i) == Scan(w, list[..i], chosen[..i], frame, fits)
    ensures scan(0) == Scanned(w, [])
    ensures scan(|list|) == Scan(w, list, chosen, frame, fits)
    ensures forall i :: 0 <= i < |list| ==> Scans(scan, list, chosen, framing, m, fits, i)
  {
    assert list[..|list|] == list && chosen[..|list|] == chosen;
    forall i | 0 <= i < |list|
      ensures Scans(scan, list, chosen, framing, m, fits, i)
    {
      assert list[i] in list;
      ScanKeeps(w, list[..i], chosen[..i], frame, fits);
      ScanNext(w, list, chosen, frame, fits, i);
    }
  }

  lemma {:induction false} ShutLater(was: Conns, w: Net, frame: Sub -> Slice, subs: seq<Sub>, marks: seq<bool>, wants: Sub -> bool, later: Conns)
    requires Tracks(was, w, frame, subs, marks, wants) && SameButNet(w.conns, later)
    ensures forall c :: Shut(was, w.conns)(c) ==> Shut(was, later)(c)
    ensures forall c :: c in was && was[c].closed ==> c in w.conns && w.conns[c].closed
    ensures forall c :: c in was && !was[c].closed && (w.conns[c].closed || later[c].closed) ==> Shut(was, later)(c)
  {
    forall c | c in was && was[c].closed
      ensures c in w.conns && w.conns[c].closed
    {
      assert FollowsAt(was, w, frame, subs, marks, wants, c);
    }
  }

  lemma {:induction false} MatchingOutcome(was: Conns, w: Net, frame: Sub -> Slice, subs: seq<Sub>, marks: seq<bool>, wants: Sub -> bool,
                                           list: seq<Sub>, groups: seq<Group>, chosen: seq<bool>, fits: Sub -> bool, now: Sub -> bool, r: Scanned)
    requires Tracks(was, w, frame, subs, marks, wants)
    requires forall s :: wants(s) <==> Wanted(was, fits, s)
    requires forall s :: now(s) <==> Wanted(w.conns, fits, s)
    requires Collected(groups, list, |list|, now)
    requires |chosen| == |list| && forall i :: 0 <= i < |list| ==> (chosen[i] <==> Chosen(groups, list[i], i))
    requires r == Scan(w, list, chosen, frame, fits)
    ensures Passed(was, w, r.net, frame, subs, marks, wants, list, r.hits) && SameButNet(w.conns, r.net.conns)
  {
    ScanKeeps(w, list, chosen, frame, fits);
    ShutLater(was, w, frame, subs, marks, wants, r.net.conns);
    ScanTracks(was, w, frame, subs, marks, wants, list, chosen, fits);
    forall i | 0 <= i < |list|
      ensures r.hits[i] ==> now(list[i]) && Chosen(groups, list[i], i)
      ensures now(list[i]) && Chosen(groups, list[i], i) ==> r.hits[i] || Shut(was, r.net.conns)(list[i].conn)
    {
      ScanDelivers(w, list, chosen, frame, fits, i);
    }
    ChosenOutcome(groups, list, r.hits, wants, now, Shut(was, r.net.conns));
  }

  lemma {:induction false} BumpCount(list: seq<Sub>, hits: seq<bool>, c: nat)
    requires |hits| == |list|
    ensures Count(Bump(list, hits), c) == Count(list, c)
  {
    if list != [] {
      assert Bump(list, hits)[1..] == Bump(list[1..], hits[1..]);
      BumpCount(list[1..], hits[1..], c);
    }
  }

  lemma {:induction false} BumpBacked(a: Conns, b: Conns, total: nat, list: seq<Sub>, hits: seq<bool>)
    requires |hits| == |list| && Backed(a, total, list) && SameButNet(a, b)
    ensures Backed(b, total, Bump(list, hits)) && Balanced(a, b, list, Bump(list, hits))
  {
    forall c: nat
      ensures Count(Bump(list, hits), c) == Count(list, c)
    {
      BumpCount(list, hits, c);
    }
    forall s | s in Bump(list, hits)
      ensures s.conn in b
    {
      var i :| 0 <= i < |list| && s == Bump(list, hits)[i];
      assert list[i] in list;
    }
  }

  lemma {:induction false} BalancedAfter(a: Conns, b: Conns, d: Conns, x: seq<Sub>, y: seq<Sub>, z: seq<Sub>)
    requires Balanced(a, b, x, y) && Recounted(b, d, y, z)
    ensures Balanced(a, d, x, z)
  {
  }

  // ----- sweeping, step by step -----

  lemma {:induction false} RecountedTrans(a: Conns, b: Conns, d: Conns, x: seq<Sub>, y: seq<Sub>, z: seq<Sub>)
    requires Recounted(a, b, x, y) && Recounted(b, d, y, z)
    ensures Recounted(a, d, x, z)
  {
  }

  lemma {:induction false} DropBacked(conns: Conns, total: nat, list: seq<Sub>, i: nat)
    requires i < |list| && Backed(conns, total, list)
    ensures var c, next := list[i].conn, HashIndex.SwapRemove(list, i);
      c in conns && total > 0 && conns[c].subCount > 0 &&
      var conns' := conns[c := conns[c].(subCount := conns[c].subCount - 1)];
      Backed(conns', total - 1, next) && Recounted(conns, conns', list, next)
  {
    var c, next := list[i].conn, HashIndex.SwapRemove(list, i);
    assert list[i] in list;
    forall e: nat
      ensures Count(list, e) == Count(next, e) + if c == e then 1 else 0
    {
      CountDrop(list, i, e);
    }
  }

  lemma {:induction false} KeepBacked(conns: Conns, total: nat, list: seq<Sub>, i: nat, s: Sub)
    requires i < |list| && Backed(conns, total, list) && s.conn == list[i].conn
    ensures Backed(conns, total, list[i := s]) && Recounted(conns, conns, list, list[i := s])
  {
    forall e: nat
      ensures Count(list[i := s], e) == Count(list, e)
    {
      CountUpdate(list, i, s, e);
    }
  }

  lemma {:induction false} RowBacked(conns: Conns, total: nat, rows: seq<seq<Sub>>, k: nat)
    requires k < |rows| && Backed(conns, total, Flat(rows))
    ensures Backed(conns, total, rows[k])
  {
    RowCounts(rows, k, rows[k]);
    forall s | s in rows[k]
      ensures s.conn in conns
    {
      FlatHas(rows, k, s);
    }
  }

  lemma {:induction false} RowRecounted(a: Conns, b: Conns, rows: seq<seq<Sub>>, k: nat, row: seq<Sub>)
    requires k < |rows| && Recounted(a, b, rows[k], row)
    ensures Recounted(a, b, Flat(rows), Flat(rows[k := row]))
  {
    RowCounts(rows, k, row);
  }

  ghost predicate Sweeping(list: seq<Sub>, rule: Rule, conns0: Conns, total0: nat, cur: seq<Sub>, i: nat, conns: Conns, total: nat) {
    i <= |cur| && multiset(cur[..i] + Sweep(cur[i..], rule)) == multiset(Sweep(list, rule)) &&
    Backed(conns, total, cur) && Recounted(conns0, conns, list, cur) && total + |list| == total0 + |cur|
  }

  lemma {:induction false} SweepingStart(list: seq<Sub>, rule: Rule, conns: Conns, total: nat)
    requires Backed(conns, total, list)
    ensures Sweeping(list, rule, conns, total, list, 0, conns, total)
  {
    assert list[..0] + Sweep(list[0..], rule) == Sweep(list, rule);
  }

  lemma {:induction false} SweepingEnd(list: seq<Sub>, rule: Rule, conns0: Conns, total0: nat, cur: seq<Sub>, i: nat, conns: Conns, total: nat)
    requires Sweeping(list, rule, conns0, total0, cur, i, conns, total) && i == |cur|
    ensures multiset(cur) == multiset(Sweep(list, rule))
  {
    assert cur[..i] + Sweep(cur[i..], rule) == cur;
  }

  lemma {:induction false} SweepingDrop(list: seq<Sub>, rule: Rule, conns0: Conns, total0: nat, cur: seq<Sub>, i: nat, conns: Conns, total: nat)
    requires Sweeping(list, rule, conns0, total0, cur, i, conns, total) && i < |cur| && rule(cur[i]).None?
    ensures var c := cur[i].conn;
      c in conns && total > 0 && conns[c].subCount > 0 &&
      Sweeping(list, rule, conns0, total0, HashIndex.SwapRemove(cur, i), i,
        conns[c := conns[c].(subCount := conns[c].subCount - 1)], total - 1)
  {
    var next := HashIndex.SwapRemove(cur, i);
    SweepDrop(cur, i, rule);
    DropBacked(conns, total, cur, i);
    var c := cur[i].conn;
    RecountedTrans(conns0, conns, conns[c := conns[c].(subCount := conns[c].subCount - 1)], list, cur, next);
  }

  lemma {:induction false} SweepingKeep(list: seq<Sub>, rule: Rule, conns0: Conns, total0: nat, cur: seq<Sub>, i: nat, conns: Conns, total: nat)
    requires Sweeping(list, rule, conns0, total0, cur, i, conns, total) && i < |cur| && rule(cur[i]).Some? && KeepsIdentity(rule)
    ensures Sweeping(list, rule, conns0, total0, cur[i := rule(cur[i]).value], i + 1, conns, total)
  {
    var next := cur[i := rule(cur[i]).value];
    SweepKeep(cur, i, rule);
    KeepBacked(conns, total, cur, i, rule(cur[i]).value);
    RecountedTrans(conns0, conns, conns, list, cur, next);
  }

  ghost predicate SweepingRows(rows: seq<seq<Sub>>, rule: Rule, conns0: Conns, total0: nat,
                               cur: seq<seq<Sub>>, i: nat, conns: Conns, total: nat) {
    SweptRows(rows, rule, cur, i) && RowsCounted(rows, conns0, total0, cur, conns, total) && [] !in cur[..i]
  }

  lemma {:induction false} SweepingRowsStart(rows: seq<seq<Sub>>, rule: Rule, conns: Conns, total: nat)
    requires Backed(conns, total, Flat(rows))
    ensures SweepingRows(rows, rule, conns, total, rows, 0, conns, total)
  {
    assert rows[0..] == rows && rows[..0] == [];
  }

  lemma {:induction false} SweepingRowsEnd(rows: seq<seq<Sub>>, rule: Rule, conns0: Conns, total0: nat,
                                           cur: seq<seq<Sub>>, i: nat, conns: Conns, total: nat)
    requires SweepingRows(rows, rule, conns0, total0, cur, i, conns, total) && i == |cur|
    ensures multiset(Flat(cur)) == multiset(Sweep(Flat(rows), rule)) && [] !in cur
  {
    assert cur[..i] == cur && cur[i..] == [];
  }

  /** The first `i` rows are done. */
  ghost predicate SweptRows(rows: seq<seq<Sub>>, rule: Rule, cur: seq<seq<Sub>>, i: nat) {
    i <= |cur| && multiset(Flat(cur[..i])) + multiset(Sweep(Flat(cur[i..]), rule)) == multiset(Sweep(Flat(rows), rule))
  }

  ghost predicate RowsCounted(rows: seq<seq<Sub>>, conns0: Conns, total0: nat, cur: seq<seq<Sub>>, conns: Conns, total: nat) {
    Backed(conns, total, Flat(cur)) && Recounted(conns0, conns, Flat(rows), Flat(cur)) &&
    total + |Flat(rows)| == total0 + |Flat(cur)|
  }

  lemma {:induction false} RowCounted(rows: seq<seq<Sub>>, conns0: Conns, total0: nat, cur: seq<seq<Sub>>, i: nat, conns: Conns, total: nat,
                                      row: seq<Sub>, conns': Conns, total': nat)
    requires RowsCounted(rows, conns0, total0, cur, conns, total) && i < |cur|
    requires Recounted(conns, conns', cur[i], row) && Backed(conns', total', row) && total' + |cur[i]| == total + |row|
    ensures RowsCounted(rows, conns0, total0, cur[i := row], conns', total')
  {
    RowRecounted(conns, conns', cur, i, row);
    RowSwapBacked(conns, total, conns', total', cur, i, row);
    RecountedTrans(conns0, conns, conns', Flat(rows), Flat(cur), Flat(cur[i := row]));
  }

  lemma {:induction false} SweptRowsDrop(rows: seq<seq<Sub>>, rule: Rule, cur: seq<seq<Sub>>, i: nat)
    requires i < |cur| && SweptRows(rows, rule, cur, i + 1) && cur[i] == []
    ensures SweptRows(rows, rule, HashIndex.SwapRemove(cur, i), i)
  {
    SweepRowDrop(cur, i, rule);
    FlatSnocEmpty(cur, i);
  }

  /** One row swept, and removed when that emptied it. */
  lemma {:induction false} SweepingRow(rows: seq<seq<Sub>>, rule: Rule, conns0: Conns, total0: nat,
                                       cur: seq<seq<Sub>>, i: nat, conns: Conns, total: nat,
                                       row: seq<Sub>, conns': Conns, total': nat)
    requires SweepingRows(rows, rule, conns0, total0, cur, i, conns, total) && i < |cur|
    requires multiset(row) == multiset(Sweep(cur[i], rule)) && Recounted(conns, conns', cur[i], row)
    requires Backed(conns', total', row) && total' + |cur[i]| == total + |row|
    ensures var next := cur[i := row];
      if row == [] then SweepingRows(rows, rule, conns0, total0, HashIndex.SwapRemove(next, i), i, conns', total')
      else SweepingRows(rows, rule, conns0, total0, next, i + 1, conns', total')
  {
    var next := cur[i := row];
    SweepRow(cur, i, row, rule);
    RowCounted(rows, conns0, total0, cur, i, conns, total, row, conns', total');
    if row == [] {
      SweptRowsDrop(rows, rule, next, i);
      SweepingRowDrop(conns0, rows, conns', total', next, i);
    }
  }

  lemma {:induction false} FlatSnocEmpty(rows: seq<seq<Sub>>, i: nat)
    requires i < |rows| && rows[i] == []
    ensures Flat(rows[..i + 1]) == Flat(rows[..i])
  {
    assert rows[..i + 1] == rows[..i] + [[]];
    FlatNone(rows[..i]);
  }

  lemma {:induction false} RowSwapBacked(conns: Conns, total: nat, conns': Conns, total': nat, rows: seq<seq<Sub>>, i: nat, row: seq<Sub>)
    requires i < |rows| && Backed(conns, total, Flat(rows)) && Backed(conns', total', row)
    requires Recounted(conns, conns', rows[i], row) && total' + |rows[i]| == total + |row|
    ensures Backed(conns', total', Flat(rows[i := row])) && total' + |Flat(rows)| == total + |Flat(rows[i := row])|
  {
    RowCounts(rows, i, row);
    forall s | s in Flat(rows[i := row])
      ensures s.conn in conns'
    {
      var k := FlatMember(rows[i := row], s);
      if k != i {
        FlatHas(rows, k, s);
      }
    }
  }

  lemma {:induction false} SweepingRowDrop(conns0: Conns, rows: seq<seq<Sub>>, conns: Conns, total: nat, cur: seq<seq<Sub>>, i: nat)
    requires i < |cur| && cur[i] == [] && Backed(conns, total, Flat(cur)) && Recounted(conns0, conns, Flat(rows), Flat(cur))
    ensures var next := Flat(HashIndex.SwapRemove(cur, i));
      Backed(conns, total, next) && Recounted(conns0, conns, Flat(rows), next) && |next| == |Flat(cur)|
  {
    var next := Flat(HashIndex.SwapRemove(cur, i));
    DropEmptyRow(cur, i);
    forall s | s in next
      ensures s.conn in conns
    {
      assert s in multiset(next);
      assert s in multiset(Flat(cur));
    }
  }

  ghost predicate PartlyBumped(list: seq<Sub>, hits: seq<bool>, list': seq<Sub>) {
    |hits| <= |list| == |list'| &&
    forall j :: 0 <= j < |list| ==> list'[j] == if j < |hits| then BumpOne(list[j], hits[j]) else list[j]
  }

  lemma {:induction false} BumpNext(list: seq<Sub>, hits: seq<bool>, list': seq<Sub>, hit: bool)
    requires PartlyBumped(list, hits, list') && |hits| < |list|
    ensures var i := |hits|; PartlyBumped(list, hits + [hit], list'[i := BumpOne(list'[i], hit)])
    ensures list'[|hits|] == list[|hits|] && (!hit ==> list'[|hits| := list'[|hits|]] == list')
  {
  }

  lemma {:induction false} BumpDone(list: seq<Sub>, hits: seq<bool>, list': seq<Sub>)
    requires PartlyBumped(list, hits, list') && |hits| == |list|
    ensures list' == Bump(list, hits)
  {
  }

  /** `scan(i)` is where the delivery loop stands after `i` entries. */
  ghost predicate Scans(scan: nat -> Scanned, list: seq<Sub>, chosen: seq<bool>, framing: Framing, m: Post, fits: Sub -> bool, i: nat)
    requires i < |list| == |chosen|
  {
    var r := scan(i);
    list[i].conn in r.net.conns &&
    var one := ScanOne(r.net, list[i], chosen[i], framing(r.net.conns[list[i].conn].sse, list[i], m), fits);
    scan(i + 1) == Scanned(one.net, r.hits + one.hits)
  }

  lemma {:induction false} ScanOneKeeps(w: Net, s: Sub, chosen: bool, f: Slice, fits: Sub -> bool)
    ensures var one := ScanOne(w, s, chosen, f, fits);
      SameButNet(w.conns, one.net.conns) && |one.net.kicked| <= |w.kicked| + 1 && |one.net.closed| <= |w.closed| + 1
  {
  }

  lemma {:induction false} CollectedSkip(groups: seq<Group>, list: seq<Sub>, i: nat, wants: Sub -> bool)
    requires i < |list| && Collected(groups, list, i, wants) && !Candidate(wants, list[i])
    ensures Collected(groups, list, i + 1, wants)
  {
  }

  /** What `collect_queue_delivery` does to the groups for entry `s`, number `i`: group `k` is its own. */
  predicate Joined(groups: seq<Group>, next: seq<Group>, s: Sub, i: nat, k: nat) {
    k <= |groups| && |next| == (if k == |groups| then k + 1 else |groups|) && InGroup(next[k], s) &&
    (next[k].selected == i || (k < |groups| && next[k].selected == groups[k].selected)) &&
    (forall l :: 0 <= l < |next| && l != k ==> next[l] == groups[l]) &&
    (k < |groups| ==> SameKey(groups[k], next[k]))
  }

  lemma {:induction false} JoinedKeys(groups: seq<Group>, next: seq<Group>, s: Sub, i: nat, k: nat)
    requires Joined(groups, next, s, i, k) && (k == |groups| <==> !HasGroup(groups, s))
    requires forall a, b :: 0 <= a < b < |groups| ==> !SameKey(groups[a], groups[b])
    ensures forall a, b :: 0 <= a < b < |next| ==> !SameKey(next[a], next[b])
  {
    forall a, b | 0 <= a < b < |next|
      ensures !SameKey(next[a], next[b])
    {
      if b < |groups| {
        assert !SameKey(groups[a], groups[b]);
      } else {
        assert next[a] == groups[a] && !InGroup(groups[a], s) && InGroup(next[b], s);
      }
    }
  }

  lemma {:induction false} JoinedHas(groups: seq<Group>, next: seq<Group>, s: Sub, i: nat, k: nat, t: Sub)
    requires Joined(groups, next, s, i, k) && (t == s || HasGroup(groups, t))
    ensures HasGroup(next, t)
  {
    if t == s {
      assert InGroup(next[k], s);
    } else {
      var l :| 0 <= l < |groups| && InGroup(groups[l], t);
      assert InGroup(next[l], t);
    }
  }

  lemma {:induction false} CollectedStep(groups: seq<Group>, next: seq<Group>, list: seq<Sub>, i: nat, wants: Sub -> bool, k: nat)
    requires i < |list| && Collected(groups, list, i, wants) && Candidate(wants, list[i])
    requires Joined(groups, next, list[i], i, k) && (k == |groups| <==> !HasGroup(groups, list[i]))
    ensures Collected(next, list, i + 1, wants)
  {
    JoinedKeys(groups, next, list[i], i, k);
    forall j | 0 <= j < i + 1 && Candidate(wants, list[j])
      ensures HasGroup(next, list[j])
    {
      JoinedHas(groups, next, list[i], i, k, list[j]);
    }
  }
}
