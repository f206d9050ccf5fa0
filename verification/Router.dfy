/**
 The router of `src/router.c`: literal buckets, first-token buckets and global wildcards. One publish
 looks at two buckets and one list; the results below are about a scan of every subscription.
 */
module Router {
  import opened Bytes
  import opened Subjects
  import opened Subscriptions
  import opened LastValues
  import opened Delivery
  import HashIndex
  import Frames
  import Utf8
  import Wire

  const MAX_SUBS_PER_CONN: nat := 4096
  const MAX_SUBS_TOTAL: nat := 65536

  // ----- from the bucket that was visited to all buckets -----

  /** The marks of a scan that only visits the middle one of three parts. */
  function Pad(before: nat, hits: seq<bool>, after: nat): (marks: seq<bool>)
    ensures |marks| == before + |hits| + after
  {
    Nobody(before) + (hits + Nobody(after))
  }

  lemma {:induction false} OutcomePad(pre: seq<Sub>, list: seq<Sub>, post: seq<Sub>, hits: seq<bool>, wants: Sub -> bool, shut: nat -> bool)
    requires Outcome(list, hits, wants, shut)
    requires forall s :: s in pre || s in post ==> !wants(s)
    ensures Outcome(pre + (list + post), Pad(|pre|, hits, |post|), wants, shut)
  {
    OutcomeNobody(pre, wants, shut);
    OutcomeNobody(post, wants, shut);
    OutcomeConcat(list, hits, post, Nobody(|post|), wants, shut);
    OutcomeConcat(pre, Nobody(|pre|), list + post, hits + Nobody(|post|), wants, shut);
  }

  lemma {:induction false} SentPad(frame: Sub -> Slice, pre: seq<Sub>, list: seq<Sub>, post: seq<Sub>, hits: seq<bool>, wants: Sub -> bool, c: nat)
    requires |hits| == |list|
    requires forall s :: s in pre || s in post ==> !wants(s)
    ensures Sent(frame, pre + (list + post), Pad(|pre|, hits, |post|), c) == Sent(frame, list, hits, c)
    ensures Due(frame, pre + (list + post), wants, c) == Due(frame, list, wants, c)
  {
    SentNobody(frame, pre, Nobody(|pre|), wants, c);
    SentNobody(frame, post, Nobody(|post|), wants, c);
    SentConcat(frame, list, hits, post, Nobody(|post|), c);
    SentConcat(frame, pre, Nobody(|pre|), list + post, hits + Nobody(|post|), c);
    DueConcat(frame, list, post, wants, c);
    DueConcat(frame, pre, list + post, wants, c);
  }

  lemma {:induction false} CountPad(pre: seq<Sub>, list: seq<Sub>, post: seq<Sub>, c: nat)
    ensures Count(pre + (list + post), c) == Count(pre, c) + Count(list, c) + Count(post, c)
  {
    CountConcat(pre, list + post, c);
    CountConcat(list, post, c);
  }

  ghost function Filters(list: seq<Sub>): set<Slice> {
    set s | s in list :: s.subject
  }

  lemma {:induction false} FiltersApart(a: seq<Sub>, b: seq<Sub>)
    requires Filters(a) !! Filters(b)
    ensures forall s, t :: s in a && t in b ==> !SameGroup(s, t)
  {
    forall s, t | s in a && t in b
      ensures !SameGroup(s, t)
    {
      assert s.subject in Filters(a) && t.subject in Filters(b);
    }
  }

  lemma {:induction false} SettledJoin(a: seq<Sub>, ma: seq<bool>, a': seq<Sub>, b: seq<Sub>, mb: seq<bool>, b': seq<Sub>)
    requires Settled(a, ma, a') && Settled(b, mb, b')
    ensures Settled(a + b, ma + mb, a' + b')
  {
    assert Bump(a + b, ma + mb) == Bump(a, ma) + Bump(b, mb);
    SweepConcat(Bump(a, ma), Bump(b, mb), EXPIRE);
  }

  lemma {:induction false} SettledNobody(a: seq<Sub>)
    requires forall s :: s in a ==> !Expired(s)
    ensures Settled(a, Nobody(|a|), a)
  {
    assert Bump(a, Nobody(|a|)) == a;
    SweepAll(a, EXPIRE);
  }

  lemma {:induction false} SettledPad(pre: seq<Sub>, list: seq<Sub>, list': seq<Sub>, post: seq<Sub>, hits: seq<bool>)
    requires Settled(list, hits, list')
    requires forall s :: s in pre || s in post ==> !Expired(s)
    ensures Settled(pre + (list + post), Pad(|pre|, hits, |post|), pre + (list' + post))
  {
    SettledNobody(pre);
    SettledNobody(post);
    SettledJoin(list, hits, list', post, Nobody(|post|), post);
    SettledJoin(pre, Nobody(|pre|), pre, list + post, hits + Nobody(|post|), list' + post);
  }

  /** What is kept for each entry. */
  predicate SubOk(s: Sub) {
    SubjectValid(s.subject, true) && TokenValid(s.sid) && (s.queue == [] || TokenValid(s.queue)) && !Expired(s)
  }

  ghost predicate Sound(all: seq<Sub>) {
    forall s :: s in all ==> SubOk(s)
  }

  /** The counters are the numbers of entries, in all and per connection. */
  ghost predicate Accounts(conns: Conns, total: nat, all: seq<Sub>) {
    |all| == total && (forall s :: s in all ==> s.conn in conns) &&
    forall c :: c in conns ==> conns[c].subCount == Count(all, c)
  }

  /** No connection is marked for a publish to come. */
  ghost predicate Marked(conns: Conns, epoch: nat) {
    forall c :: c in conns ==> conns[c].kickSeen <= epoch && conns[c].closeSeen <= epoch
  }

  ghost predicate Capped(conns: Conns, total: nat) {
    total <= MAX_SUBS_TOTAL && forall c :: c in conns ==> conns[c].subCount <= MAX_SUBS_PER_CONN
  }

  ghost predicate Kept(conns: Conns, total: nat, epoch: nat, all: seq<Sub>) {
    Sound(all) && Accounts(conns, total, all) && Marked(conns, epoch) && Capped(conns, total)
  }

  lemma {:induction false} FlatOutside(rows: seq<seq<Sub>>, k: nat, s: Sub)
    requires k < |rows| && (s in Flat(rows[..k]) || s in Flat(rows[k + 1..]))
    ensures exists j :: 0 <= j < |rows| && j != k && s in rows[j]
  {
    if s in Flat(rows[..k]) {
      var i := FlatMember(rows[..k], s);
      assert s in rows[i];
    } else {
      var i := FlatMember(rows[k + 1..], s);
      assert s in rows[k + 1 + i];
    }
  }

  /** Everything a subject matches in one array is in the bucket its key selects. */
  lemma {:induction false} OnlyRow(b: Buckets, subject: Slice, key: Slice, s: Sub)
    requires b.Valid() && SubjectValid(subject, false)
    requires s in b.All() && SubjectValid(s.subject, true) && Matches(s.subject, subject)
    requires key == if b.literal then subject else First(subject)
    ensures key in b.index.keys
    ensures forall j :: 0 <= j < |b.rows| && s in b.rows[j] ==> b.index.keys[j] == key
  {
    MatchesPlace(s.subject, subject);
    var j := FlatMember(b.rows, s);
    assert PlaceOf(s.subject) == b.At(b.index.keys[j]);
    forall j | 0 <= j < |b.rows| && s in b.rows[j]
      ensures b.index.keys[j] == key
    {
      assert PlaceOf(s.subject) == b.At(b.index.keys[j]);
    }
  }

  /** So nothing outside bucket `k` is wanted, and nothing at all when there is no such bucket. */
  lemma {:induction false} OtherRows(b: Buckets, config: Config, subject: Slice, key: Slice, k: int, wants: Sub -> bool)
    requires b.Valid() && SubjectValid(subject, false)
    requires forall s :: s in b.All() ==> SubOk(s) && (wants(s) ==> Admits(config, subject, s))
    requires key == if b.literal then subject else First(subject)
    requires if k < 0 then key !in b.index.keys else k < |b.rows| && b.index.keys[k] == key
    ensures k < 0 ==> forall s :: s in b.All() ==> !wants(s)
    ensures k >= 0 ==> forall s :: s in Flat(b.rows[..k]) || s in Flat(b.rows[k + 1..]) ==> !wants(s)
  {
    if k < 0 {
      forall s | s in b.All() && wants(s)
        ensures false
      {
        OnlyRow(b, subject, key, s);
      }
    } else {
      FlatAround(b.rows, k, b.rows[k]);
      forall s | s in Flat(b.rows[..k]) || s in Flat(b.rows[k + 1..])
        ensures !wants(s)
      {
        FlatOutside(b.rows, k, s);
        if wants(s) {
          OnlyRow(b, subject, key, s);
        }
      }
    }
  }

  /** What a subscription matches is in its own place only, so the literal bucket needs no filter check. */
  lemma {:induction false} RowChecks(b: Buckets, config: Config, subject: Slice, k: nat, fits: Sub -> bool)
    requires b.Valid() && SubjectValid(subject, false) && k < |b.rows| && (b.literal ==> b.index.keys[k] == subject)
    requires forall s :: s in b.All() ==> SubOk(s) && (fits(s) <==> Admits(config, subject, s))
    ensures forall s :: s in b.rows[k] ==> s in b.All() && Checks(config, subject, !b.literal, fits, s)
  {
    forall s | s in b.rows[k]
      ensures s in b.All() && Checks(config, subject, !b.literal, fits, s)
    {
      FlatHas(b.rows, k, s);
      assert s in b.All();
      assert SubOk(s);
      MatchesPlace(s.subject, subject);
      assert PlaceOf(s.subject) == b.At(b.index.keys[k]);
    }
  }

  // ----- one bucket of an array, or none -----

  function RowOf(rows: seq<seq<Sub>>, k: int): seq<Sub>
    requires k < |rows|
  {
    if k < 0 then [] else rows[k]
  }

  ghost function Before(rows: seq<seq<Sub>>, k: int): seq<Sub>
    requires k < |rows|
  {
    if k < 0 then [] else Flat(rows[..k])
  }

  ghost function After(rows: seq<seq<Sub>>, k: int): seq<Sub>
    requires k < |rows|
  {
    if k < 0 then Flat(rows) else Flat(rows[k + 1..])
  }

  function WithRow(rows: seq<seq<Sub>>, k: int, row: seq<Sub>): seq<seq<Sub>>
    requires k < |rows|
  {
    if k < 0 then rows else rows[k := row]
  }

  lemma {:induction false} RowSplit(rows: seq<seq<Sub>>, k: int, row: seq<Sub>)
    requires k < |rows| && (k < 0 ==> row == [])
    ensures Flat(rows) == Before(rows, k) + (RowOf(rows, k) + After(rows, k))
    ensures Flat(WithRow(rows, k, row)) == Before(rows, k) + (row + After(rows, k))
  {
    if k < 0 {
      assert [] + ([] + Flat(rows)) == Flat(rows);
    } else {
      FlatAround(rows, k, row);
    }
  }

  /** What a publish of `m` that starts at `was` sends to whom. */
  ghost predicate Scope(config: Config, was: Conns, framing: Framing, m: Post, frame: Sub -> Slice,
                        fits: Sub -> bool, wants: Sub -> bool, all: seq<Sub>) {
    framing == Frame && FramesOf(was, framing, m, frame, all) &&
    (forall s :: s in all ==> SubOk(s) && (fits(s) <==> Admits(config, m.subject, s))) &&
    forall s :: wants(s) <==> Wanted(was, fits, s)
  }

  /** What a lookup of `key` found in `b`: the bucket of the published subject, or that there is none. */
  ghost predicate Looked(b: Buckets, subject: Slice, k: int)
    reads b, b.index
  {
    var key := if b.literal then subject else First(subject);
    |b.rows| == |b.index.keys| && if k < 0 then key !in b.index.keys else k < |b.rows| && b.index.keys[k] == key
  }

  /** Everything outside the bucket found is out of reach, and what is in it passes the checks the code makes. */
  lemma {:induction false} LookedUp(b: Buckets, config: Config, was: Conns, framing: Framing, m: Post, frame: Sub -> Slice,
                                    fits: Sub -> bool, wants: Sub -> bool, k: int)
    requires b.Valid() && SubjectValid(m.subject, false) && Looked(b, m.subject, k)
    requires Scope(config, was, framing, m, frame, fits, wants, b.All())
    ensures FramesOf(was, framing, m, frame, RowOf(b.rows, k))
    ensures forall s :: s in RowOf(b.rows, k) ==> Checks(config, m.subject, !b.literal, fits, s)
    ensures forall s :: s in Before(b.rows, k) || s in After(b.rows, k) ==> !wants(s) && !Expired(s)
  {
    OtherRows(b, config, m.subject, if b.literal then m.subject else First(m.subject), k, wants);
    RowSplit(b.rows, k, []);
    if k >= 0 {
      RowChecks(b, config, m.subject, k, fits);
    }
  }

  // ----- a whole publish -----

  /** What a publish that started at `was` has done to the list of all subscriptions. */
  ghost predicate Visited(was: Conns, w: Net, frame: Sub -> Slice, wants: Sub -> bool, all: seq<Sub>, marks: seq<bool>, all': seq<Sub>) {
    Tracks(was, w, frame, all, marks, wants) && Outcome(all, marks, wants, Shut(was, w.conns)) &&
    Settled(all, marks, all') && Balanced(was, w.conns, all, all')
  }

  /** A visit of three lists, as a visit of all three arrays they are part of. */
  datatype Part = Part(pre: seq<Sub>, list: seq<Sub>, post: seq<Sub>, hits: seq<bool>, list': seq<Sub>) {
    ghost function All(): seq<Sub> { pre + (list + post) }
    ghost function Left(): seq<Sub> { pre + (list' + post) }
    ghost function Marks(): seq<bool> { Pad(|pre|, hits, |post|) }
    ghost predicate Outside(wants: Sub -> bool) {
      forall s :: s in pre || s in post ==> !wants(s) && !Expired(s)
    }
  }

  lemma {:induction false} PartRound(p: Part, was: Conns, now: Conns, wants: Sub -> bool)
    requires Round(was, now, wants, p.list, p.hits, p.list') && p.Outside(wants)
    ensures Round(was, now, wants, p.All(), p.Marks(), p.Left())
  {
    OutcomePad(p.pre, p.list, p.post, p.hits, wants, Shut(was, now));
    SettledPad(p.pre, p.list, p.list', p.post, p.hits);
  }

  lemma {:induction false} PartSent(p: Part, q: Part, g: seq<Sub>, hg: seq<bool>, frame: Sub -> Slice, wants: Sub -> bool, c: nat)
    requires |p.hits| == |p.list| && |q.hits| == |q.list| && |hg| == |g| && p.Outside(wants) && q.Outside(wants)
    ensures Sent(frame, (p.All() + q.All()) + g, (p.Marks() + q.Marks()) + hg, c) ==
      Sent(frame, (p.list + q.list) + g, (p.hits + q.hits) + hg, c)
    ensures Due(frame, (p.All() + q.All()) + g, wants, c) == Due(frame, (p.list + q.list) + g, wants, c)
  {
    SentPad(frame, p.pre, p.list, p.post, p.hits, wants, c);
    SentPad(frame, q.pre, q.list, q.post, q.hits, wants, c);
    SentConcat(frame, p.All(), p.Marks(), q.All(), q.Marks(), c);
    SentConcat(frame, p.All() + q.All(), p.Marks() + q.Marks(), g, hg, c);
    SentConcat(frame, p.list, p.hits, q.list, q.hits, c);
    SentConcat(frame, p.list + q.list, p.hits + q.hits, g, hg, c);
    DueConcat(frame, p.All(), q.All(), wants, c);
    DueConcat(frame, p.All() + q.All(), g, wants, c);
    DueConcat(frame, p.list, q.list, wants, c);
    DueConcat(frame, p.list + q.list, g, wants, c);
  }

  lemma {:induction false} PartTracks(p: Part, q: Part, g: seq<Sub>, hg: seq<bool>, was: Conns, w: Net, frame: Sub -> Slice, wants: Sub -> bool)
    requires |p.hits| == |p.list| && |q.hits| == |q.list| && |hg| == |g| && p.Outside(wants) && q.Outside(wants)
    requires Tracks(was, w, frame, (p.list + q.list) + g, (p.hits + q.hits) + hg, wants)
    ensures Tracks(was, w, frame, (p.All() + q.All()) + g, (p.Marks() + q.Marks()) + hg, wants)
  {
    forall c | c in w.conns
      ensures FollowsAt(was, w, frame, (p.All() + q.All()) + g, (p.Marks() + q.Marks()) + hg, wants, c)
    {
      assert FollowsAt(was, w, frame, (p.list + q.list) + g, (p.hits + q.hits) + hg, wants, c);
      PartSent(p, q, g, hg, frame, wants, c);
    }
  }

  lemma {:induction false} PartCount(p: Part, q: Part, g: seq<Sub>, g': seq<Sub>, c: nat)
    ensures Count((p.All() + q.All()) + g, c) + Count((p.list' + q.list') + g', c) ==
      Count((p.Left() + q.Left()) + g', c) + Count((p.list + q.list) + g, c)
  {
    CountPad(p.pre, p.list, p.post, c);
    CountPad(p.pre, p.list', p.post, c);
    CountPad(q.pre, q.list, q.post, c);
    CountPad(q.pre, q.list', q.post, c);
    CountConcat(p.All() + q.All(), g, c);
    CountConcat(p.All(), q.All(), c);
    CountConcat(p.Left() + q.Left(), g', c);
    CountConcat(p.Left(), q.Left(), c);
    CountConcat(p.list + q.list, g, c);
    CountConcat(p.list, q.list, c);
    CountConcat(p.list' + q.list', g', c);
    CountConcat(p.list', q.list', c);
  }

  lemma {:induction false} PartBalanced(p: Part, q: Part, g: seq<Sub>, g': seq<Sub>, was: Conns, now: Conns)
    requires Balanced(was, now, (p.list + q.list) + g, (p.list' + q.list') + g')
    ensures Balanced(was, now, (p.All() + q.All()) + g, (p.Left() + q.Left()) + g')
  {
    forall c | c in was
      ensures now[c].subCount + Count((p.All() + q.All()) + g, c) == was[c].subCount + Count((p.Left() + q.Left()) + g', c)
    {
      PartCount(p, q, g, g', c);
    }
  }

  lemma {:induction false} RoundJoin(was: Conns, now: Conns, wants: Sub -> bool, a: seq<Sub>, ha: seq<bool>, a': seq<Sub>,
                                     b: seq<Sub>, hb: seq<bool>, b': seq<Sub>)
    requires Round(was, now, wants, a, ha, a') && Round(was, now, wants, b, hb, b') && Filters(a) !! Filters(b)
    ensures Round(was, now, wants, a + b, ha + hb, a' + b')
  {
    FiltersApart(a, b);
    OutcomeConcat(a, ha, b, hb, wants, Shut(was, now));
    SettledJoin(a, ha, a', b, hb, b');
  }

  lemma {:induction false} Whole(p: Part, q: Part, g: seq<Sub>, hg: seq<bool>, g': seq<Sub>, was: Conns, w: Net, frame: Sub -> Slice, wants: Sub -> bool)
    requires p.Outside(wants) && q.Outside(wants)
    requires Filters(p.All()) !! Filters(q.All()) && Filters(p.All() + q.All()) !! Filters(g)
    requires Rounds(was, w.conns, wants, p.list, p.hits, p.list', q.list, q.hits, q.list') && Round(was, w.conns, wants, g, hg, g')
    requires Tracks(was, w, frame, (p.list + q.list) + g, (p.hits + q.hits) + hg, wants)
    requires Balanced(was, w.conns, (p.list + q.list) + g, (p.list' + q.list') + g')
    ensures Visited(was, w, frame, wants, (p.All() + q.All()) + g, (p.Marks() + q.Marks()) + hg, (p.Left() + q.Left()) + g')
  {
    PartTracks(p, q, g, hg, was, w, frame, wants);
    PartBalanced(p, q, g, g', was, w.conns);
    PartRound(p, was, w.conns, wants);
    PartRound(q, was, w.conns, wants);
    RoundJoin(was, w.conns, wants, p.All(), p.Marks(), p.Left(), q.All(), q.Marks(), q.Left());
    RoundJoin(was, w.conns, wants, p.All() + q.All(), p.Marks() + q.Marks(), p.Left() + q.Left(), g, hg, g');
  }

  lemma {:induction false} AllPlaces(b: Buckets)
    requires b.Valid()
    ensures forall s :: s in b.All() ==> if b.literal then PlaceOf(s.subject).Literal? else PlaceOf(s.subject).Leading?
  {
    forall s | s in b.All()
      ensures if b.literal then PlaceOf(s.subject).Literal? else PlaceOf(s.subject).Leading?
    {
      var k := FlatMember(b.rows, s);
      assert PlaceOf(s.subject) == b.At(b.index.keys[k]);
    }
  }

  /** The filter of a queue group decides which array holds all of the group. */
  lemma {:induction false} GroupsApart(literal: Buckets, wildcard: Buckets, global: seq<Sub>)
    requires literal.Valid() && wildcard.Valid() && literal.literal && !wildcard.literal && RowAt(global, Anywhere)
    ensures Filters(literal.All()) !! Filters(wildcard.All())
    ensures Filters(literal.All() + wildcard.All()) !! Filters(global)
  {
    AllPlaces(literal);
    AllPlaces(wildcard);
    var a, b := literal.All(), wildcard.All();
    assert forall f :: f in Filters(a) ==> PlaceOf(f).Literal?;
    assert forall f :: f in Filters(b) ==> PlaceOf(f).Leading?;
    assert forall f :: f in Filters(a + b) ==> f in Filters(a) || f in Filters(b);
    assert forall f :: f in Filters(global) ==> PlaceOf(f).Anywhere?;
  }

  /** The subscriptions of two bucket arrays and a list. */
  ghost function AllOf(ra: seq<seq<Sub>>, rb: seq<seq<Sub>>, g: seq<Sub>): seq<Sub> {
    (Flat(ra) + Flat(rb)) + g
  }

  class Router {
    const literal: Buckets
    const wildcard: Buckets
    var global: seq<Sub>  // `wildcard_global`
    const net: Fanout
    const lvc: Lvc

    ghost predicate Apart()
      reads this, literal, wildcard, lvc, literal.index, wildcard.index, lvc.index
    {
      literal != wildcard && literal.index != wildcard.index &&
      literal.index != lvc.index && wildcard.index != lvc.index &&
      literal.index.cells != wildcard.index.cells &&
      literal.index.cells != lvc.index.cells && wildcard.index.cells != lvc.index.cells
    }

    /** Every subscription, whichever list it is in. */
    ghost function All(): seq<Sub>
      reads this, literal, wildcard
    {
      AllOf(literal.rows, wildcard.rows, global)
    }

    /** Each subscription is where a lookup will find it. */
    ghost predicate Placed()
      reads this, literal, wildcard, literal.index, wildcard.index, literal.index.cells, wildcard.index.cells
    {
      literal != wildcard && literal.Valid() && wildcard.Valid() &&
      literal.literal && !wildcard.literal && RowAt(global, Anywhere)
    }

    /** The invariant of every run. */
    ghost predicate Valid()
      reads this, net, literal, wildcard, lvc, literal.index, wildcard.index, lvc.index
      reads literal.index.cells, wildcard.index.cells, lvc.index.cells
    {
      Apart() && Placed() && lvc.Valid() && Counted()
    }

    /** The part of it that is about counters. */
    ghost predicate Counted()
      reads this, net, literal, wildcard
    {
      Kept(net.conns, net.subCount, net.epoch, All()) &&
      net.subCount <= net.kickCap && net.subCount <= net.closeCap && net.subCount <= net.queueCap
    }

    constructor (hash: Slice -> nat, random: nat -> nat)
      ensures Valid() && All() == [] && net.conns == map[]
    {
      literal := new Buckets(true, hash);
      wildcard := new Buckets(false, hash);
      global := [];
      net := new Fanout(random);
      lvc := new Lvc(hash);
    }

    /** Write the lists back to where they came from. */
    method PutBack(k: int, l: int, a': seq<Sub>, b': seq<Sub>, g': seq<Sub>, ghost ha: seq<bool>, ghost hb: seq<bool>, ghost hg: seq<bool>)
      requires Placed() && k < |literal.rows| && l < |wildcard.rows|
      requires Settled(RowOf(literal.rows, k), ha, a') && Settled(RowOf(wildcard.rows, l), hb, b') && Settled(global, hg, g')
      modifies this`global, literal`rows, wildcard`rows
      ensures Placed() && global == g'
      ensures literal.rows == WithRow(old(literal.rows), k, a') && wildcard.rows == WithRow(old(wildcard.rows), l, b')
    {
      RowPlaces(literal, k, ha, a');
      literal.rows := WithRow(literal.rows, k, a');
      assert literal.Valid();
      RowPlaces(wildcard, l, hb, b');
      wildcard.rows := WithRow(wildcard.rows, l, b');
      assert wildcard.Valid();
      BumpPlace(global, hg, g', Anywhere);
      global := g';
    }

    /** Deliver to the lists of a publish whose buckets have been looked up. */
    method FanDeliver(m: Post, k: int, l: int, ghost all: seq<Sub>, ghost was: Conns, ghost framing: Framing, ghost frame: Sub -> Slice,
                      ghost fits: Sub -> bool, ghost wants: Sub -> bool)
      returns (a': seq<Sub>, b': seq<Sub>, g': seq<Sub>, ghost ha: seq<bool>, ghost hb: seq<bool>, ghost hg: seq<bool>)
      requires Placed() && SubjectValid(m.subject, false) && Looked(literal, m.subject, k) && Looked(wildcard, m.subject, l)
      requires all == AllOf(literal.rows, wildcard.rows, global) && was == net.conns && Backed(was, net.subCount, all)
      requires Scope(lvc.config, was, framing, m, frame, fits, wants, all)
      requires Tracks(was, net.State(), frame, [], [], wants)
      requires |all| <= net.kickCap && |all| <= net.closeCap && |all| <= net.queueCap
      modifies net`conns, net`kicked, net`closed, net`draws, net`subCount
      ensures FanOutside(literal.rows, k, wants) && FanOutside(wildcard.rows, l, wants)
      ensures Dealt(was, net.State(), frame, wants, RowOf(literal.rows, k), ha, a', RowOf(wildcard.rows, l), hb, b', global, hg, g')
      ensures net.subCount + |(RowOf(literal.rows, k) + RowOf(wildcard.rows, l)) + global| == old(net.subCount) + |(a' + b') + g'|
    {
      FanReady(literal, wildcard, global, was, net.subCount, lvc.config, framing, m, frame, fits, wants, k, l);
      a', b', g', ha, hb, hg := net.DeliverThree(lvc, RowOf(literal.rows, k), RowOf(wildcard.rows, l), global, m, was, framing, frame, fits, wants);
    }

    /** Written back, the lists of a publish account for all arrays. */
    method PutWhole(k: int, l: int, a': seq<Sub>, b': seq<Sub>, g': seq<Sub>, ghost ha: seq<bool>, ghost hb: seq<bool>, ghost hg: seq<bool>,
                    ghost was: Conns, ghost frame: Sub -> Slice, ghost wants: Sub -> bool)
      returns (ghost marks: seq<bool>)
      requires Placed() && FanOutside(literal.rows, k, wants) && FanOutside(wildcard.rows, l, wants)
      requires Dealt(was, net.State(), frame, wants, RowOf(literal.rows, k), ha, a', RowOf(wildcard.rows, l), hb, b', global, hg, g')
      modifies this`global, literal`rows, wildcard`rows
      ensures Placed()
      ensures Visited(was, net.State(), frame, wants, AllOf(old(literal.rows), old(wildcard.rows), old(global)), marks,
        AllOf(literal.rows, wildcard.rows, global))
      ensures |AllOf(old(literal.rows), old(wildcard.rows), old(global))| + |(a' + b') + g'| ==
        |AllOf(literal.rows, wildcard.rows, global)| + |(RowOf(old(literal.rows), k) + RowOf(old(wildcard.rows), l)) + old(global)|
    {
      GroupsApart(literal, wildcard, global);
      marks := FanWhole(literal.rows, wildcard.rows, global, k, l, ha, hb, hg, a', b', g', was, net.State(), frame, wants);
      PutBack(k, l, a', b', g', ha, hb, hg);
    }

    /** The same, with the lists written back. */
    method FanLists(m: Post, k: int, l: int, ghost all: seq<Sub>, ghost was: Conns, ghost framing: Framing, ghost frame: Sub -> Slice,
                    ghost fits: Sub -> bool, ghost wants: Sub -> bool)
      returns (ghost marks: seq<bool>)
      requires Placed() && SubjectValid(m.subject, false) && Looked(literal, m.subject, k) && Looked(wildcard, m.subject, l)
      requires all == AllOf(literal.rows, wildcard.rows, global) && was == net.conns && Backed(was, net.subCount, all)
      requires Scope(lvc.config, was, framing, m, frame, fits, wants, all)
      requires Tracks(was, net.State(), frame, [], [], wants)
      requires |all| <= net.kickCap && |all| <= net.closeCap && |all| <= net.queueCap
      modifies this`global, literal`rows, wildcard`rows, net`conns, net`kicked, net`closed, net`draws, net`subCount
      ensures Placed()
      ensures Visited(was, net.State(), frame, wants, all, marks, AllOf(literal.rows, wildcard.rows, global))
      ensures net.subCount + |all| == old(net.subCount) + |AllOf(literal.rows, wildcard.rows, global)|
    {
      var a', b', g';
      ghost var ha, hb, hg;
      a', b', g', ha, hb, hg := FanDeliver(m, k, l, all, was, framing, frame, fits, wants);
      marks := PutWhole(k, l, a', b', g', ha, hb, hg, was, frame, wants);
    }

    /** Look up the buckets and deliver, in a new epoch. */
    method FanFrom(m: Post, ghost epoch: nat, ghost frame: Sub -> Slice, ghost fits: Sub -> bool, ghost wants: Sub -> bool)
      returns (ghost marks: seq<bool>)
      requires Placed() && Kept(net.conns, net.subCount, epoch, AllOf(literal.rows, wildcard.rows, global)) && SubjectValid(m.subject, false)
      requires net.epoch > epoch && net.kicked == [] && net.closed == []
      requires net.subCount <= net.kickCap && net.subCount <= net.closeCap && net.subCount <= net.queueCap
      requires frame == FrameFor(net.conns, m) && fits == FitsFor(lvc.config, m.subject) && wants == WantsFor(net.conns, fits)
      modifies this`global, literal`rows, wildcard`rows, net`conns, net`kicked, net`closed, net`draws, net`subCount
      ensures Placed() && Kept(net.conns, net.subCount, net.epoch, AllOf(literal.rows, wildcard.rows, global)) && net.subCount <= old(net.subCount)
      ensures Visited(old(net.conns), net.State(), frame, wants, AllOf(old(literal.rows), old(wildcard.rows), old(global)), marks, AllOf(literal.rows, wildcard.rows, global))
    {
      ghost var was, total, all := net.conns, net.subCount, AllOf(literal.rows, wildcard.rows, global);
      var k := literal.index.Find(m.subject);
      var first := FirstToken(m.subject);
      var l := wildcard.index.Find(first);
      FanStarts(was, net.State(), total, epoch, lvc.config, Frame, m, frame, fits, wants, all);
      marks := FanLists(m, k, l, all, was, Frame, frame, fits, wants);
      FanEnds(was, net.State(), frame, wants, all, marks, AllOf(literal.rows, wildcard.rows, global), total, net.subCount, epoch);
    }

    /** A new epoch, and the lists. */
    method Fan(m: Post, ghost frame: Sub -> Slice, ghost fits: Sub -> bool, ghost wants: Sub -> bool) returns (ghost marks: seq<bool>)
      requires Placed() && Counted() && SubjectValid(m.subject, false)
      requires frame == FrameFor(net.conns, m) && fits == FitsFor(lvc.config, m.subject) && wants == WantsFor(net.conns, fits)
      modifies this`global, literal`rows, wildcard`rows
      modifies net`conns, net`kicked, net`closed, net`draws, net`subCount, net`epoch
      ensures Placed() && Counted()
      ensures Visited(old(net.conns), net.State(), frame, wants, AllOf(old(literal.rows), old(wildcard.rows), old(global)), marks, AllOf(literal.rows, wildcard.rows, global))
    {
      ghost var epoch, all := net.epoch, AllOf(literal.rows, wildcard.rows, global);
      net.NextEpoch();
      marks := FanFrom(m, epoch, frame, fits, wants);
    }

    /** The callbacks owed by a publish. */
    method Finish(ghost m: Post, ghost was: Conns, ghost frame: Sub -> Slice, ghost fits: Sub -> bool, ghost wants: Sub -> bool,
                  ghost all: seq<Sub>, ghost marks: seq<bool>, ghost all': seq<Sub>)
      returns (closes: seq<nat>, kicks: seq<nat>)
      requires Visited(was, net.State(), frame, wants, all, marks, all')
      requires frame == FrameFor(was, m) && fits == FitsFor(lvc.config, m.subject) && wants == WantsFor(was, fits)
      ensures Published(was, net.conns, lvc.config, m, all, all', marks, closes, kicks)
    {
      closes, kicks := Callbacks();
      FanPublished(was, net.State(), lvc.config, m, frame, fits, wants, all, marks, all', closes, kicks);
    }

    /** The checks of a publish, and the store of its payload as a last value. */
    method AdmitValue(subject: Slice, payload: Slice, reply: Slice) returns (ok: bool)
      requires lvc.Valid()
      modifies lvc`payloads, lvc`payloadBytes, lvc.index`keys, lvc.index`cells, lvc.index`at, lvc.index.cells
      ensures lvc.Valid() && (lvc.index.cells == old(lvc.index.cells) || fresh(lvc.index.cells))
      ensures ok == Admissible(lvc.config, old(lvc.Entries()), subject, payload, reply)
      ensures lvc.Entries() == Remembered(lvc.config, old(lvc.Entries()), subject, payload, reply)
    {
      var valid := CheckSubjectValid(subject, false);
      if !valid {
        return false;
      }
      if |reply| != 0 {
        valid := CheckSubjectValid(reply, false);
        if !valid {
          return false;
        }
      }
      if LVC_PREFIX <= subject {
        return false;
      }
      ok := lvc.StoreValue(subject, payload);
    }

    /** The rest of the invariant does not look at the cache. */
    method Admit(subject: Slice, payload: Slice, reply: Slice) returns (ok: bool)
      requires Valid()
      modifies lvc`payloads, lvc`payloadBytes, lvc.index`keys, lvc.index`cells, lvc.index`at, lvc.index.cells
      ensures Valid() && AllOf(literal.rows, wildcard.rows, global) == old(AllOf(literal.rows, wildcard.rows, global))
      ensures ok == Admissible(lvc.config, old(lvc.Entries()), subject, payload, reply)
      ensures lvc.Entries() == Remembered(lvc.config, old(lvc.Entries()), subject, payload, reply)
    {
      ghost var ra, rb, ca, cb := literal.rows, wildcard.rows, literal.index.cells, wildcard.index.cells;
      ok := AdmitValue(subject, payload, reply);
      assert literal.rows == ra && wildcard.rows == rb && literal.index.cells == ca && wildcard.index.cells == cb;
    }

    /** A publish that passed its checks. */
    method FanOut(m: Post) returns (closes: seq<nat>, kicks: seq<nat>, ghost marks: seq<bool>)
      requires Placed() && Counted() && SubjectValid(m.subject, false)
      modifies this`global, literal`rows, wildcard`rows
      modifies net`conns, net`kicked, net`closed, net`draws, net`subCount, net`epoch
      ensures Placed() && Counted()
      ensures Published(old(net.conns), net.conns, lvc.config, m, AllOf(old(literal.rows), old(wildcard.rows), old(global)),
        AllOf(literal.rows, wildcard.rows, global), marks, closes, kicks)
    {
      ghost var was, all := net.conns, AllOf(literal.rows, wildcard.rows, global);
      ghost var frame, fits := FrameFor(was, m), FitsFor(lvc.config, m.subject);
      ghost var wants := WantsFor(was, fits);
      marks := Fan(m, frame, fits, wants);
      closes, kicks := Finish(m, was, frame, fits, wants, all, marks, AllOf(literal.rows, wildcard.rows, global));
    }

    /** The rest of the invariant is not touched. */
    method FanKept(m: Post) returns (closes: seq<nat>, kicks: seq<nat>, ghost marks: seq<bool>)
      requires Valid() && SubjectValid(m.subject, false)
      modifies this`global, literal`rows, wildcard`rows
      modifies net`conns, net`kicked, net`closed, net`draws, net`subCount, net`epoch
      ensures Valid()
      ensures Published(old(net.conns), net.conns, lvc.config, m, AllOf(old(literal.rows), old(wildcard.rows), old(global)),
        AllOf(literal.rows, wildcard.rows, global), marks, closes, kicks)
    {
      closes, kicks, marks := FanOut(m);
    }

    /**
     `mb_router_publish_with_reply_and_options`. It fails only on its arguments or on a refused store,
     and then nothing has changed; the scratch arrays are always large enough.
     */
    method Publish(subject: Slice, payload: Slice, reply: Slice)
      returns (ok: bool, closes: seq<nat>, kicks: seq<nat>, ghost marks: seq<bool>)
      requires Valid()
      modifies this`global, literal`rows, wildcard`rows
      modifies net`conns, net`kicked, net`closed, net`draws, net`subCount, net`epoch
      modifies lvc`payloads, lvc`payloadBytes, lvc.index`keys, lvc.index`cells, lvc.index`at, lvc.index.cells
      ensures Valid()
      ensures ok == Admissible(lvc.config, old(lvc.Entries()), subject, payload, reply)
      ensures lvc.Entries() == Remembered(lvc.config, old(lvc.Entries()), subject, payload, reply)
      ensures !ok ==> net.conns == old(net.conns) && All() == old(All()) && closes == [] && kicks == []
      ensures ok ==> Published(old(net.conns), net.conns, lvc.config, Post(subject, reply, payload), old(All()), All(), marks, closes, kicks)
    {
      closes, kicks, marks := [], [], [];
      ok := Admit(subject, payload, reply);
      if !ok {
        return;
      }
      if net.kickCap < net.subCount || net.closeCap < net.subCount || net.queueCap < net.subCount {
        assert false;
      }
      closes, kicks, marks := FanKept(Post(subject, reply, payload));
    }

    /** Apply a rule to both bucket arrays; buckets that become empty are removed. */
    method SweepBoth(rule: Rule)
      requires Apart() && Placed() && KeepsIdentity(rule)
      requires Backed(net.conns, net.subCount, literal.All() + wildcard.All())
      modifies literal`rows, literal.index`keys, literal.index`at, literal.index.cells
      modifies wildcard`rows, wildcard.index`keys, wildcard.index`at, wildcard.index.cells, net`conns, net`subCount
      ensures Apart() && Placed()
      ensures literal.index.cells == old(literal.index.cells) && wildcard.index.cells == old(wildcard.index.cells)
      ensures SweptTo(old(literal.All() + wildcard.All()), rule, literal.All() + wildcard.All(),
        old(net.conns), old(net.subCount), net.conns, net.subCount)
    {
      ghost var a, b, start, total := literal.All(), wildcard.All(), net.conns, net.subCount;
      BackedPart(start, total, a, b);
      net.SweepBuckets(literal, rule);
      ghost var ra, mid, total1 := literal.rows, net.conns, net.subCount;
      NextBacked(start, mid, total, total1, a, Flat(ra), b);
      net.SweepBuckets(wildcard, rule);
      assert literal.rows == ra;
      SweptJoin(a, Flat(ra), b, wildcard.All(), rule, start, total, mid, total1, net.conns, net.subCount);
    }

    /** Apply a rule to every list. */
    method SweepLists(rule: Rule)
      requires Apart() && Placed() && KeepsIdentity(rule) && Backed(net.conns, net.subCount, All())
      modifies this`global, literal`rows, literal.index`keys, literal.index`at, literal.index.cells
      modifies wildcard`rows, wildcard.index`keys, wildcard.index`at, wildcard.index.cells, net`conns, net`subCount
      ensures Apart() && Placed()
      ensures literal.index.cells == old(literal.index.cells) && wildcard.index.cells == old(wildcard.index.cells)
      ensures SweptTo(old(All()), rule, All(), old(net.conns), old(net.subCount), net.conns, net.subCount)
    {
      ghost var start, total := net.conns, net.subCount;
      ghost var a, g := literal.All() + wildcard.All(), global;
      BackedPart(start, total, a, g);
      SweepBoth(rule);
      ghost var ra, rb, mid, total1 := literal.rows, wildcard.rows, net.conns, net.subCount;
      NextBacked(start, mid, total, total1, a, Flat(ra) + Flat(rb), g);
      SweepGlobal(rule);
      assert literal.rows == ra && wildcard.rows == rb;
      SweptJoin(a, Flat(ra) + Flat(rb), g, global, rule, start, total, mid, total1, net.conns, net.subCount);
    }

    /** The invariant survives a rule that keeps entries sound. */
    method SweepAll(rule: Rule)
      requires Valid() && KeepsIdentity(rule) && KeepsOk(rule)
      modifies this`global, literal`rows, literal.index`keys, literal.index`at, literal.index.cells
      modifies wildcard`rows, wildcard.index`keys, wildcard.index`at, wildcard.index.cells, net`conns, net`subCount
      ensures Valid()
      ensures SweptTo(old(All()), rule, All(), old(net.conns), old(net.subCount), net.conns, net.subCount)
    {
      ghost var all, start, total, epoch, cells := All(), net.conns, net.subCount, net.epoch, lvc.index.cells;
      SweepLists(rule);
      assert lvc.index.cells == cells && lvc.Valid();
      SweptKept(all, rule, All(), start, total, net.conns, net.subCount, epoch);
    }

    method SweepGlobal(rule: Rule)
      requires RowAt(global, Anywhere) && KeepsIdentity(rule) && Backed(net.conns, net.subCount, global)
      modifies this`global, net`conns, net`subCount
      ensures RowAt(global, Anywhere)
      ensures SweptTo(old(global), rule, global, old(net.conns), old(net.subCount), net.conns, net.subCount)
    {
      var g' := net.SweepList(global, rule);
      SweepPlace(global, g', rule, Anywhere);
      global := g';
    }

    /** `mb_router_unsubscribe`; `max` is there when `has_max_msgs` is set. */
    method Unsubscribe(c: nat, sid: Slice, max: Option<nat>)
      requires Valid()
      modifies this`global, literal`rows, literal.index`keys, literal.index`at, literal.index.cells
      modifies wildcard`rows, wildcard.index`keys, wildcard.index`at, wildcard.index.cells, net`conns, net`subCount
      ensures Valid()
      ensures SweptTo(old(All()), Limit(c, sid, max), All(), old(net.conns), old(net.subCount), net.conns, net.subCount)
      ensures Unsubscribed(old(All()), All(), c, sid, max)
    {
      ghost var all := All();
      SweepAll(Limit(c, sid, max));
      LimitUnsubscribes(all, All(), c, sid, max);
    }

    /** `mb_router_remove_all_for`. */
    method RemoveAllFor(c: nat)
      requires Valid()
      modifies this`global, literal`rows, literal.index`keys, literal.index`at, literal.index.cells
      modifies wildcard`rows, wildcard.index`keys, wildcard.index`at, wildcard.index.cells, net`conns, net`subCount
      ensures Valid()
      ensures SweptTo(old(All()), Drop(c), All(), old(net.conns), old(net.subCount), net.conns, net.subCount)
      ensures Removed(old(All()), All(), c)
    {
      ghost var all := All();
      SweepAll(Drop(c));
      DropRemoves(all, All(), c);
    }

    /** The body of a subscribe: put the entry where a publish will look for it. */
    method Place(sub: Sub)
      requires Apart() && Placed()
      modifies this`global, literal`rows, literal.index`keys, literal.index`cells, literal.index`at, literal.index.cells
      modifies wildcard`rows, wildcard.index`keys, wildcard.index`cells, wildcard.index`at, wildcard.index.cells
      ensures Apart() && Placed()
      ensures literal.index.cells == old(literal.index.cells) || fresh(literal.index.cells)
      ensures wildcard.index.cells == old(wildcard.index.cells) || fresh(wildcard.index.cells)
      ensures multiset(All()) == multiset(old(All())) + multiset{sub}
    {
      var isLiteral := IsLiteralFilter(sub.subject);
      if isLiteral {
        PlaceLiteral(sub);
      } else {
        var first := FirstToken(sub.subject);
        var wild := IsWildcardToken(first);
        if wild {
          global := global + [sub];
        } else {
          PlaceWildcard(sub, first);
        }
      }
    }

    method PlaceLiteral(sub: Sub)
      requires Apart() && Placed() && WildFree(sub.subject)
      modifies literal`rows, literal.index`keys, literal.index`cells, literal.index`at, literal.index.cells
      ensures Apart() && Placed() && (literal.index.cells == old(literal.index.cells) || fresh(literal.index.cells))
      ensures multiset(All()) == multiset(old(All())) + multiset{sub}
    {
      literal.Add(sub.subject, sub);
    }

    method PlaceWildcard(sub: Sub, first: Slice)
      requires Apart() && Placed() && PlaceOf(sub.subject) == Leading(first)
      modifies wildcard`rows, wildcard.index`keys, wildcard.index`cells, wildcard.index`at, wildcard.index.cells
      ensures Apart() && Placed() && (wildcard.index.cells == old(wildcard.index.cells) || fresh(wildcard.index.cells))
      ensures multiset(All()) == multiset(old(All())) + multiset{sub}
    {
      wildcard.Add(first, sub);
    }

    /** The body of the loop of `emit_cached`: always the MSG writer. */
    method EmitEntry(out: Slice, filter: Slice, sid: Slice, i: nat) returns (ok: bool, out': Slice)
      requires lvc.Valid() && i < |lvc.index.keys|
      ensures var f := ReplayPart(lvc.config, lvc.Entries(), filter, sid, i);
        ok == (f == [] || |out| + |f| <= MAX_PENDING) && out' == if ok then out + f else out
    {
      var subject, payload := lvc.index.keys[i], lvc.payloads[i];
      var enabled := lvc.FilterMatches(subject, false);
      var matches := SubjectMatches(filter, subject);
      if !enabled || !matches {
        return true, out;
      }
      var size := Frames.MsgFrameLen(|LVC_PREFIX|, subject, sid, [], payload);
      if |out| > MAX_PENDING || size > MAX_PENDING - |out| {
        return false, out;
      }
      var buf := new Frames.Buf();
      buf.data := out;
      Frames.WriteMsg(buf, LVC_PREFIX, subject, sid, [], payload);
      ok, out' := true, buf.data;
    }

    /** The loop of `emit_cached`; after a failure the first `n` entries have been written. */
    method EmitLoop(pending: Slice, filter: Slice, sid: Slice, ghost part: nat -> Slice, ghost sent: nat -> Slice)
      returns (ok: bool, out: Slice, ghost n: nat)
      requires lvc.Valid()
      requires part == ReplayParts(lvc.config, lvc.Entries(), filter, sid)
      requires sent(0) == [] && forall i :: 0 <= i < |lvc.index.keys| ==> sent(i + 1) == sent(i) + part(i)
      ensures n <= |lvc.index.keys| && out == pending + sent(n) && (ok <==> n == |lvc.index.keys|)
      ensures sent(n) != [] ==> |out| <= MAX_PENDING
      ensures !ok ==> part(n) != [] && |out| + |part(n)| > MAX_PENDING
    {
      n, out := 0, pending;
      for i := 0 to |lvc.index.keys|
        invariant n == i && out == pending + sent(i)
        invariant sent(i) != [] ==> |out| <= MAX_PENDING
      {
        ok, out := EmitEntry(out, filter, sid, i);
        Frames.Assoc(pending, sent(i), part(i));
        if !ok {
          return;
        }
        assert part(i) == [] ==> sent(i + 1) == sent(i);
        n := i + 1;
      }
      ok := true;
    }

    /** `emit_cached`. */
    method EmitCached(c: nat, filter: Slice, sid: Slice) returns (ok: bool, ghost n: nat)
      requires lvc.Valid() && c in net.conns
      modifies net`conns
      ensures n <= |lvc.index.keys|
      ensures net.conns == Appended(old(net.conns), c, Replay(lvc.config, lvc.Entries(), filter, sid, n))
      ensures ok <==> lvc.config.enabled && n == |lvc.index.keys|
      ensures if lvc.config.enabled then ReplayCut(lvc.config, lvc.Entries(), filter, sid, |old(net.conns)[c].out|, n) else n == 0
    {
      if !lvc.config.enabled {
        ghost var k := net.conns[c];
        assert k.out + [] == k.out && net.conns[c := k] == net.conns;
        return false, 0;
      }
      ok, n := EmitEnabled(c, filter, sid);
    }

    method EmitEnabled(c: nat, filter: Slice, sid: Slice) returns (ok: bool, ghost n: nat)
      requires lvc.Valid() && c in net.conns
      modifies net`conns
      ensures n <= |lvc.index.keys| && (ok <==> n == |lvc.index.keys|)
      ensures net.conns == Appended(old(net.conns), c, Replay(lvc.config, lvc.Entries(), filter, sid, n))
      ensures ReplayCut(lvc.config, lvc.Entries(), filter, sid, |old(net.conns)[c].out|, n)
    {
      ghost var part := ReplayParts(lvc.config, lvc.Entries(), filter, sid);
      ghost var sent := Replays(lvc.config, lvc.Entries(), filter, sid);
      ReplaySteps(lvc.config, lvc.Entries(), filter, sid);
      var out;
      ok, out, n := EmitLoop(net.conns[c].out, filter, sid, part, sent);
      net.conns := net.conns[c := net.conns[c].(out := out)];
    }

    /** Make room for one more publish target, place the entry and count it. */
    method AddPlaced(sub: Sub)
      requires Apart() && Placed() && Counted() && SubOk(sub) && sub.conn in net.conns
      requires net.conns[sub.conn].subCount < MAX_SUBS_PER_CONN && net.subCount < MAX_SUBS_TOTAL
      modifies this`global, literal`rows, literal.index`keys, literal.index`cells, literal.index`at, literal.index.cells
      modifies wildcard`rows, wildcard.index`keys, wildcard.index`cells, wildcard.index`at, wildcard.index.cells
      modifies net`conns, net`subCount, net`kickCap, net`closeCap, net`queueCap
      ensures Apart() && Placed() && Counted()
      ensures literal.index.cells == old(literal.index.cells) || fresh(literal.index.cells)
      ensures wildcard.index.cells == old(wildcard.index.cells) || fresh(wildcard.index.cells)
      ensures multiset(AllOf(literal.rows, wildcard.rows, global)) == multiset(AllOf(old(literal.rows), old(wildcard.rows), old(global))) + multiset{sub}
      ensures net.conns == OneMore(old(net.conns), sub.conn)
    {
      ghost var conns, total, epoch, all := net.conns, net.subCount, net.epoch, AllOf(literal.rows, wildcard.rows, global);
      Place(sub);
      ghost var ra, rb, g := literal.rows, wildcard.rows, global;
      net.NoteSubAdded(sub.conn);
      assert literal.rows == ra && wildcard.rows == rb && global == g;
      AddedKept(conns, total, epoch, all, AllOf(ra, rb, g), sub);
    }

    /** The cache is not touched. */
    method AddSub(sub: Sub)
      requires Valid() && SubOk(sub) && sub.conn in net.conns
      requires net.conns[sub.conn].subCount < MAX_SUBS_PER_CONN && net.subCount < MAX_SUBS_TOTAL
      modifies this`global, literal`rows, literal.index`keys, literal.index`cells, literal.index`at, literal.index.cells
      modifies wildcard`rows, wildcard.index`keys, wildcard.index`cells, wildcard.index`at, wildcard.index.cells
      modifies net`conns, net`subCount, net`kickCap, net`closeCap, net`queueCap
      ensures Valid()
      ensures literal.index.cells == old(literal.index.cells) || fresh(literal.index.cells)
      ensures wildcard.index.cells == old(wildcard.index.cells) || fresh(wildcard.index.cells)
      ensures multiset(All()) == multiset(old(All())) + multiset{sub}
      ensures net.conns == OneMore(old(net.conns), sub.conn)
    {
      ghost var cells := lvc.index.cells;
      AddPlaced(sub);
      assert lvc.index.cells == cells;
    }

    /** `EmitCached` touches one output buffer and nothing that is counted. */
    method ReplayTo(c: nat, filter: Slice, sid: Slice, ghost entries: Cache, ghost all: seq<Sub>) returns (ok: bool, ghost n: nat)
      requires lvc.Valid() && c in net.conns && lvc.config.enabled && entries == lvc.Entries()
      requires Kept(net.conns, net.subCount, net.epoch, all)
      modifies net`conns
      ensures Kept(net.conns, net.subCount, net.epoch, all)
      ensures Replayed(old(net.conns), net.conns, lvc.config, entries, c, filter, sid, ok, n)
    {
      ghost var conns := net.conns;
      ok, n := EmitCached(c, filter, sid);
      AppendedKept(conns, net.subCount, net.epoch, all, c, Replay(lvc.config, entries, filter, sid, n));
    }

    /** The rest of the invariant does not look at connections. */
    method ReplayKept(c: nat, filter: Slice, sid: Slice, ghost entries: Cache) returns (ok: bool, ghost n: nat)
      requires Valid() && c in net.conns && lvc.config.enabled && entries == lvc.Entries()
      modifies net`conns
      ensures Valid()
      ensures Replayed(old(net.conns), net.conns, lvc.config, entries, c, filter, sid, ok, n)
    {
      ok, n := ReplayTo(c, filter, sid, entries, AllOf(literal.rows, wildcard.rows, global));
    }

    /** Send a new `$LVC.` subscription the cached values, or take it back. */
    method ReplayNew(sub: Sub, ghost all: seq<Sub>, ghost was: Conns, ghost entries: Cache) returns (ok: bool, ghost n: nat)
      requires Valid() && sub.lvc && lvc.config.enabled && sub.conn in was && net.conns == OneMore(was, sub.conn)
      requires multiset(AllOf(literal.rows, wildcard.rows, global)) == multiset(all) + multiset{sub} && entries == lvc.Entries()
      modifies this`global, literal`rows, literal.index`keys, literal.index`at, literal.index.cells
      modifies wildcard`rows, wildcard.index`keys, wildcard.index`at, wildcard.index.cells, net`conns, net`subCount
      ensures Valid() && lvc.Entries() == entries && n <= |entries.subjects|
      ensures Entered(sub, all, AllOf(literal.rows, wildcard.rows, global), was, net.conns, lvc.config, entries, ok, n)
    {
      ghost var ra, rb, g, config := literal.rows, wildcard.rows, global, lvc.config;
      ok, n := ReplayKept(sub.conn, sub.subject, sub.sid, entries);
      assert literal.rows == ra && wildcard.rows == rb && global == g;
      ghost var full := net.conns;
      if !ok {
        TakeBack(sub, all);
      }
      EnteredNew(sub, all, AllOf(literal.rows, wildcard.rows, global), was, full, net.conns, config, entries, ok, n);
    }

    /** Undo a subscribe by its sid, which drops every entry with that sid. */
    method TakeBack(sub: Sub, ghost all: seq<Sub>)
      requires Valid() && multiset(AllOf(literal.rows, wildcard.rows, global)) == multiset(all) + multiset{sub}
      modifies this`global, literal`rows, literal.index`keys, literal.index`at, literal.index.cells
      modifies wildcard`rows, wildcard.index`keys, wildcard.index`at, wildcard.index.cells, net`conns, net`subCount
      ensures Valid() && lvc.Entries() == old(lvc.Entries())
      ensures multiset(AllOf(literal.rows, wildcard.rows, global)) == multiset(Sweep(all, Limit(sub.conn, sub.sid, None)))
      ensures SameButCount(old(net.conns), net.conns)
    {
      ghost var mid, full, total := All(), net.conns, net.subCount;
      ghost var keys, payloads := lvc.index.keys, lvc.payloads;
      Unsubscribe(sub.conn, sub.sid, None);
      assert lvc.index.keys == keys && lvc.payloads == payloads;
      TakenBack(sub, all, mid, All(), full, total, net.conns, net.subCount);
    }

    /** A subscribe that passed its checks; a `$LVC.` one whose replay does not fit is taken back. */
    method Enter(sub: Sub) returns (ok: bool, ghost n: nat)
      requires Valid() && SubOk(sub) && sub.conn in net.conns && (sub.lvc ==> lvc.config.enabled)
      requires net.conns[sub.conn].subCount < MAX_SUBS_PER_CONN && net.subCount < MAX_SUBS_TOTAL
      modifies this`global, literal`rows, literal.index`keys, literal.index`cells, literal.index`at, literal.index.cells
      modifies wildcard`rows, wildcard.index`keys, wildcard.index`cells, wildcard.index`at, wildcard.index.cells
      modifies net`conns, net`subCount, net`kickCap, net`closeCap, net`queueCap
      ensures Valid() && n <= |lvc.index.keys|
      ensures Entered(sub, old(All()), All(), old(net.conns), net.conns, lvc.config, lvc.Entries(), ok, n)
    {
      ghost var all, conns := All(), net.conns;
      AddSub(sub);
      ok, n := true, 0;
      if sub.lvc {
        ok, n := ReplayNew(sub, all, conns, lvc.Entries());
      }
    }

    /** The checks of `mb_router_subscribe_queue`. */
    method CheckSubscribe(c: nat, subject: Slice, queue: Slice, sid: Slice) returns (b: bool)
      ensures b == Subscribable(net.conns, net.subCount, lvc.config, c, subject, queue, sid)
    {
      if c !in net.conns {
        return false;
      }
      var sub := NewSub(c, subject, queue, sid);
      if sub.lvc && (!lvc.config.enabled || |sub.subject| == 0) {
        EmptyInvalid(sub.subject);
        return false;
      }
      var validSubject := CheckSubjectValid(sub.subject, true);
      var validSid := CheckTokenValid(sid);
      var validQueue := true;
      if |queue| != 0 {
        validQueue := CheckTokenValid(queue);
      }
      if !validSubject || !validSid || !validQueue {
        return false;
      }
      b := net.conns[c].subCount < MAX_SUBS_PER_CONN && net.subCount < MAX_SUBS_TOTAL;
    }

    /** `mb_router_subscribe_queue`; an id that is no connection stands for the null pointer. */
    method Subscribe(c: nat, subject: Slice, queue: Slice, sid: Slice) returns (ok: bool, ghost n: nat)
      requires Valid()
      modifies this`global, literal`rows, literal.index`keys, literal.index`cells, literal.index`at, literal.index.cells
      modifies wildcard`rows, wildcard.index`keys, wildcard.index`cells, wildcard.index`at, wildcard.index.cells
      modifies net`conns, net`subCount, net`kickCap, net`closeCap, net`queueCap
      ensures Valid() && n <= |lvc.index.keys|
      ensures if Subscribable(old(net.conns), old(net.subCount), lvc.config, c, subject, queue, sid)
        then Entered(NewSub(c, subject, queue, sid), old(All()), All(), old(net.conns), net.conns, lvc.config, lvc.Entries(), ok, n)
        else !ok && net.conns == old(net.conns) && All() == old(All())
    {
      ok, n := false, 0;
      var fine := CheckSubscribe(c, subject, queue, sid);
      if fine {
        ok, n := Enter(NewSub(c, subject, queue, sid));
      }
    }

    /** A new connection, zeroed but for its callbacks and writer. */
    method Attach(c: nat, kicks: bool, closes: bool, sse: bool)
      requires Valid() && c !in net.conns
      modifies net`conns
      ensures Valid() && net.conns == old(net.conns)[c := Conn([], 0, false, 0, 0, kicks, closes, sse)]
    {
      CountZero(All(), c);
      net.conns := net.conns[c := Conn([], 0, false, 0, 0, kicks, closes, sse)];
    }

    /** Between router calls the transport drains and fills output buffers and closes connections. */
    method Transport(c: nat, out: Slice, closed: bool)
      requires Valid() && c in net.conns
      modifies net`conns
      ensures Valid() && net.conns == old(net.conns)[c := old(net.conns)[c].(out := out, closed := closed)]
    {
      net.conns := net.conns[c := net.conns[c].(out := out, closed := closed)];
    }

    /** The callbacks at the end of `mb_router_publish_with_reply_and_options`. */
    method Callbacks() returns (closes: seq<nat>, kicks: seq<nat>)
      requires Listed(net.State(), |net.kicked| + |net.closed|)
      ensures HashIndex.Distinct(closes) && forall c :: c in closes <==> c in net.closed && c in net.conns && net.conns[c].closes
      ensures HashIndex.Distinct(kicks) &&
        forall c :: c in kicks <==> c in net.kicked && c in net.conns && net.conns[c].kicks && !net.conns[c].closed
    {
      closes, kicks := [], [];
      for i := 0 to |net.closed|
        invariant HashIndex.Distinct(closes)
        invariant forall c :: c in closes <==> c in net.closed[..i] && net.conns[c].closes
      {
        var c := net.closed[i];
        if net.conns[c].closes {
          closes := closes + [c];
        }
      }
      for i := 0 to |net.kicked|
        invariant HashIndex.Distinct(kicks)
        invariant forall c :: c in kicks <==> c in net.kicked[..i] && net.conns[c].kicks && !net.conns[c].closed
      {
        var c := net.kicked[i];
        if !net.conns[c].closed && net.conns[c].kicks {
          kicks := kicks + [c];
        }
      }
    }
  }

  lemma {:induction false} FanReady(literal: Buckets, wildcard: Buckets, g: seq<Sub>, conns: Conns, total: nat,
                                    config: Config, framing: Framing, m: Post, frame: Sub -> Slice,
                                    fits: Sub -> bool, wants: Sub -> bool, k: int, l: int)
    requires literal.Valid() && wildcard.Valid() && literal.literal && !wildcard.literal && SubjectValid(m.subject, false)
    requires Looked(literal, m.subject, k) && Looked(wildcard, m.subject, l)
    requires var all := (literal.All() + wildcard.All()) + g;
      Backed(conns, total, all) && Scope(config, conns, framing, m, frame, fits, wants, all)
    ensures var a, b := RowOf(literal.rows, k), RowOf(wildcard.rows, l);
      Backed(conns, total, a + b) && Backed(conns, total, (a + b) + g) &&
      |(a + b) + g| <= |(literal.All() + wildcard.All()) + g| &&
      FramesOf(conns, framing, m, frame, a) && FramesOf(conns, framing, m, frame, b) && FramesOf(conns, framing, m, frame, g) &&
      (forall s :: s in a ==> Checks(config, m.subject, false, fits, s)) &&
      (forall s :: s in b ==> Checks(config, m.subject, true, fits, s)) &&
      (forall s :: s in g ==> Checks(config, m.subject, true, fits, s))
    ensures FanOutside(literal.rows, k, wants) && FanOutside(wildcard.rows, l, wants)
  {
    ScopeParts(config, conns, framing, m, frame, fits, wants, literal.All(), wildcard.All(), g);
    LookedUp(literal, config, conns, framing, m, frame, fits, wants, k);
    LookedUp(wildcard, config, conns, framing, m, frame, fits, wants, l);
    RowSplit(literal.rows, k, []);
    RowSplit(wildcard.rows, l, []);
    BackedWithin(conns, total, Before(literal.rows, k), RowOf(literal.rows, k), After(literal.rows, k),
      Before(wildcard.rows, l), RowOf(wildcard.rows, l), After(wildcard.rows, l), g);
    BackedPart(conns, total, RowOf(literal.rows, k) + RowOf(wildcard.rows, l), g);
  }

  ghost predicate FanOutside(rows: seq<seq<Sub>>, k: int, wants: Sub -> bool) {
    k < |rows| && forall s :: s in Before(rows, k) || s in After(rows, k) ==> !wants(s) && !Expired(s)
  }

  lemma {:induction false} ScopeParts(config: Config, was: Conns, framing: Framing, m: Post, frame: Sub -> Slice,
                                      fits: Sub -> bool, wants: Sub -> bool, a: seq<Sub>, b: seq<Sub>, g: seq<Sub>)
    requires Scope(config, was, framing, m, frame, fits, wants, (a + b) + g)
    ensures Scope(config, was, framing, m, frame, fits, wants, a)
    ensures Scope(config, was, framing, m, frame, fits, wants, b)
    ensures Scope(config, was, framing, m, frame, fits, wants, g)
  {
    assert forall s :: s in a || s in b || s in g ==> s in (a + b) + g;
  }

  lemma {:induction false} BackedWithin(conns: Conns, total: nat, pa: seq<Sub>, a: seq<Sub>, qa: seq<Sub>,
                                        pb: seq<Sub>, b: seq<Sub>, qb: seq<Sub>, g: seq<Sub>)
    requires Backed(conns, total, ((pa + (a + qa)) + (pb + (b + qb))) + g)
    ensures Backed(conns, total, (a + b) + g)
    ensures |(a + b) + g| <= |((pa + (a + qa)) + (pb + (b + qb))) + g|
  {
    forall c: nat
      ensures Count((a + b) + g, c) <= Count(((pa + (a + qa)) + (pb + (b + qb))) + g, c)
    {
      CountPad(pa, a, qa, c);
      CountPad(pb, b, qb, c);
      CountConcat(pa + (a + qa), pb + (b + qb), c);
      CountConcat((pa + (a + qa)) + (pb + (b + qb)), g, c);
      CountConcat(a, b, c);
      CountConcat(a + b, g, c);
    }
    assert forall s :: s in (a + b) + g ==> s in ((pa + (a + qa)) + (pb + (b + qb))) + g;
  }

  lemma {:induction false} RowPlaces(b: Buckets, k: int, hits: seq<bool>, row: seq<Sub>)
    requires b.Valid() && k < |b.rows| && Settled(RowOf(b.rows, k), hits, row)
    ensures k >= 0 ==> RowAt(row, b.At(b.index.keys[k]))
  {
    if k >= 0 {
      BumpPlace(b.rows[k], hits, row, b.At(b.index.keys[k]));
    }
  }

  lemma {:induction false} SettledNone(hits: seq<bool>, row: seq<Sub>)
    requires Settled([], hits, row)
    ensures row == []
  {
    assert Sweep(Bump([], hits), EXPIRE) == [];
    assert |multiset(row)| == 0;
  }

  /** What a publish has done to the three lists it visits. */
  ghost predicate Dealt(was: Conns, w: Net, frame: Sub -> Slice, wants: Sub -> bool, a: seq<Sub>, ha: seq<bool>, a': seq<Sub>,
                        b: seq<Sub>, hb: seq<bool>, b': seq<Sub>, g: seq<Sub>, hg: seq<bool>, g': seq<Sub>) {
    Rounds(was, w.conns, wants, a, ha, a', b, hb, b') && Round(was, w.conns, wants, g, hg, g') &&
    Tracks(was, w, frame, (a + b) + g, (ha + hb) + hg, wants) && Balanced(was, w.conns, (a + b) + g, (a' + b') + g')
  }

  lemma {:induction false} FanWhole(ra: seq<seq<Sub>>, rb: seq<seq<Sub>>, g: seq<Sub>, k: int, l: int,
                                    ha: seq<bool>, hb: seq<bool>, hg: seq<bool>, a': seq<Sub>, b': seq<Sub>, g': seq<Sub>,
                                    was: Conns, w: Net, frame: Sub -> Slice, wants: Sub -> bool)
    returns (marks: seq<bool>)
    requires FanOutside(ra, k, wants) && FanOutside(rb, l, wants)
    requires Filters(Flat(ra)) !! Filters(Flat(rb)) && Filters(Flat(ra) + Flat(rb)) !! Filters(g)
    requires Dealt(was, w, frame, wants, RowOf(ra, k), ha, a', RowOf(rb, l), hb, b', g, hg, g')
    ensures Visited(was, w, frame, wants, (Flat(ra) + Flat(rb)) + g, marks, (Flat(WithRow(ra, k, a')) + Flat(WithRow(rb, l, b'))) + g')
    ensures |(Flat(ra) + Flat(rb)) + g| + |(a' + b') + g'| ==
      |(Flat(WithRow(ra, k, a')) + Flat(WithRow(rb, l, b'))) + g'| + |(RowOf(ra, k) + RowOf(rb, l)) + g|
  {
    if k < 0 {
      SettledNone(ha, a');
    }
    if l < 0 {
      SettledNone(hb, b');
    }
    RowSplit(ra, k, a');
    RowSplit(rb, l, b');
    var p := Part(Before(ra, k), RowOf(ra, k), After(ra, k), ha, a');
    var q := Part(Before(rb, l), RowOf(rb, l), After(rb, l), hb, b');
    Whole(p, q, g, hg, g', was, w, frame, wants);
    marks := (p.Marks() + q.Marks()) + hg;
  }

  // ----- unsubscribing -----

  /** A rule was applied to `list`, and the counters moved along; nothing else about a connection changed. */
  ghost predicate SweptTo(list: seq<Sub>, rule: Rule, list': seq<Sub>, start: Conns, total: nat, conns: Conns, total': nat) {
    multiset(list') == multiset(Sweep(list, rule)) && Recounted(start, conns, list, list') && total' + |list| == total + |list'|
  }

  ghost predicate KeepsOk(rule: Rule) {
    forall s :: SubOk(s) && rule(s).Some? ==> SubOk(rule(s).value)
  }

  lemma {:induction false} SweptJoin(a: seq<Sub>, a': seq<Sub>, b: seq<Sub>, b': seq<Sub>, rule: Rule,
                                     start: Conns, total: nat, mid: Conns, total1: nat, conns: Conns, total2: nat)
    requires SweptTo(a, rule, a', start, total, mid, total1) && SweptTo(b, rule, b', mid, total1, conns, total2)
    ensures SweptTo(a + b, rule, a' + b', start, total, conns, total2)
  {
    SweepConcat(a, b, rule);
    RecountedJoin(a, a', b, b', start, mid, conns);
  }

  lemma {:induction false} RecountedJoin(a: seq<Sub>, a': seq<Sub>, b: seq<Sub>, b': seq<Sub>, start: Conns, mid: Conns, conns: Conns)
    requires Recounted(start, mid, a, a') && Recounted(mid, conns, b, b')
    ensures Recounted(start, conns, a + b, a' + b')
  {
    forall c: nat
      ensures Count(a + b, c) == Count(a, c) + Count(b, c) && Count(a' + b', c) == Count(a', c) + Count(b', c)
    {
      CountConcat(a, b, c);
      CountConcat(a', b', c);
    }
  }

  lemma {:induction false} SweptKept(all: seq<Sub>, rule: Rule, all': seq<Sub>, start: Conns, total: nat, conns: Conns, total': nat, epoch: nat)
    requires Kept(start, total, epoch, all) && KeepsIdentity(rule) && KeepsOk(rule)
    requires SweptTo(all, rule, all', start, total, conns, total')
    ensures Kept(conns, total', epoch, all') && total' <= total
  {
    assert |multiset(all')| == |multiset(Sweep(all, rule))|;
    SweepCount(all, rule, 0);
    forall s | s in all'
      ensures SubOk(s) && s.conn in conns
    {
      assert s in multiset(all');
      var t := SweepFrom(all, rule, s);
      assert SubOk(t);
    }
    forall c | c in conns
      ensures conns[c].subCount == Count(all', c) <= start[c].subCount
    {
      CountPerm(all', Sweep(all, rule), c);
      SweepCount(all, rule, c);
    }
  }

  /** `unsubscribe_from_list`: drop the entries of `sid`, or those that had their `max` already and limit the others. */
  function Limit(c: nat, sid: Slice, max: Option<nat>): (rule: Rule)
    ensures KeepsIdentity(rule) && KeepsOk(rule)
  {
    (s: Sub) =>
      if s.conn != c || s.sid != sid then Some(s)
      else if max.None? || max.value <= s.delivered then None
      else Some(s.(max := max))
  }

  /** `remove_for_conn_from_list`. */
  function Drop(c: nat): (rule: Rule)
    ensures KeepsIdentity(rule) && KeepsOk(rule)
  {
    (s: Sub) => if s.conn != c then Some(s) else None
  }

  /** The entries that are `t` once they are given this maximum. */
  function GivenMax(max: Option<nat>, t: Sub): Sub -> bool {
    (s: Sub) => s.(max := max) == t
  }

  /**
   Entries of the sid have that maximum if it is still ahead of them, and are gone otherwise; all other
   entries are as they were. Without a maximum all entries of the sid are gone.
   */
  ghost predicate Unsubscribed(all: seq<Sub>, all': seq<Sub>, c: nat, sid: Slice, max: Option<nat>) {
    forall t: Sub {:trigger multiset(all')[t]} ::
      multiset(all')[t] ==
      if t.conn != c || t.sid != sid then multiset(all)[t]
      else if max.None? || t.max != max || t.delivered >= max.value then 0
      else Tally(all, GivenMax(max, t))
  }

  lemma {:induction false} LimitUnsubscribes(all: seq<Sub>, all': seq<Sub>, c: nat, sid: Slice, max: Option<nat>)
    requires multiset(all') == multiset(Sweep(all, Limit(c, sid, max)))
    ensures Unsubscribed(all, all', c, sid, max)
  {
    var rule := Limit(c, sid, max);
    forall t: Sub
      ensures multiset(all')[t] ==
        if t.conn != c || t.sid != sid then multiset(all)[t]
        else if max.None? || t.max != max || t.delivered >= max.value then 0
        else Tally(all, GivenMax(max, t))
    {
      SweepTally(all, rule, t);
      LimitOne(all, c, sid, max, t);
    }
  }

  lemma {:induction false} LimitOne(all: seq<Sub>, c: nat, sid: Slice, max: Option<nat>, t: Sub)
    ensures Tally(all, Becomes(Limit(c, sid, max), t)) ==
      if t.conn != c || t.sid != sid then multiset(all)[t]
      else if max.None? || t.max != max || t.delivered >= max.value then 0
      else Tally(all, GivenMax(max, t))
  {
    var becomes := Becomes(Limit(c, sid, max), t);
    if t.conn != c || t.sid != sid {
      TallyIsCount(all, t);
      TallySame(all, becomes, Is(t));
    } else if max.None? || t.max != max || t.delivered >= max.value {
      TallyNone(all, becomes);
    } else {
      TallySame(all, becomes, GivenMax(max, t));
    }
  }

  lemma {:induction false} TallyNone(all: seq<Sub>, p: Sub -> bool)
    requires forall s :: s in all ==> !p(s)
    ensures Tally(all, p) == 0
  {
    if all != [] {
      TallyNone(all[1..], p);
    }
  }

  /** The entries of the connection are gone, the others as they were. */
  ghost predicate Removed(all: seq<Sub>, all': seq<Sub>, c: nat) {
    forall t: Sub {:trigger multiset(all')[t]} :: multiset(all')[t] == if t.conn == c then 0 else multiset(all)[t]
  }

  lemma {:induction false} DropRemoves(all: seq<Sub>, all': seq<Sub>, c: nat)
    requires multiset(all') == multiset(Sweep(all, Drop(c)))
    ensures Removed(all, all', c)
  {
    forall t: Sub
      ensures multiset(all')[t] == if t.conn == c then 0 else multiset(all)[t]
    {
      SweepTally(all, Drop(c), t);
      if t.conn == c {
        TallyNone(all, Becomes(Drop(c), t));
      } else {
        TallyIsCount(all, t);
        TallySame(all, Becomes(Drop(c), t), Is(t));
      }
    }
  }

  // ----- subscribing -----

  function ReplayFrame(entries: Cache, sid: Slice, i: nat): (f: Slice)
    requires i < |entries.subjects| == |entries.payloads|
    ensures f != []
  {
    var m := Frames.Msg(LVC_PREFIX + entries.subjects[i], sid, [], entries.payloads[i]);
    assert |Frames.MsgFrame(m)| >= |Frames.MSG_VERB|;
    Frames.MsgFrame(m)
  }

  /** The frames of the first `n` cached subjects that a new `$LVC.` subscription is sent. */
  function Replay(config: Config, entries: Cache, filter: Slice, sid: Slice, n: nat): Slice
    requires n <= |entries.subjects| == |entries.payloads|
  {
    if n == 0 then [] else Replay(config, entries, filter, sid, n - 1) + ReplayPart(config, entries, filter, sid, n - 1)
  }

  function ReplayPart(config: Config, entries: Cache, filter: Slice, sid: Slice, i: nat): Slice
    requires i < |entries.subjects| == |entries.payloads|
  {
    var s := entries.subjects[i];
    if SubjectEnabled(config, s) && Matches(filter, s) then ReplayFrame(entries, sid, i) else []
  }

  /** Nothing to send, or room for all of it. */
  predicate ReplayFits(config: Config, entries: Cache, filter: Slice, sid: Slice, pending: nat)
    requires |entries.subjects| == |entries.payloads|
  {
    var all := Replay(config, entries, filter, sid, |entries.subjects|);
    all == [] || pending + |all| <= MAX_PENDING
  }

  /**
   `n` is how far a replay into a buffer that holds `pending` bytes gets: the frames so far fit, and
   the next one does not.
   */
  predicate ReplayCut(config: Config, entries: Cache, filter: Slice, sid: Slice, pending: nat, n: nat)
    requires n <= |entries.subjects| == |entries.payloads|
  {
    var sent := Replay(config, entries, filter, sid, n);
    (sent == [] || pending + |sent| <= MAX_PENDING) &&
    (n < |entries.subjects| ==>
      var next := ReplayPart(config, entries, filter, sid, n);
      next != [] && pending + |sent| + |next| > MAX_PENDING)
  }

  /** There is one such prefix, the longest that fits; it is everything exactly when everything fits. */
  lemma {:induction false} CutIsLongest(config: Config, entries: Cache, filter: Slice, sid: Slice, pending: nat, n: nat, m: nat)
    requires n <= |entries.subjects| == |entries.payloads| && m <= |entries.subjects|
    requires ReplayCut(config, entries, filter, sid, pending, n)
    ensures n < m ==> pending + |Replay(config, entries, filter, sid, m)| > MAX_PENDING
    ensures n == |entries.subjects| <==> ReplayFits(config, entries, filter, sid, pending)
  {
    if n < |entries.subjects| {
      CutThere(config, entries, filter, sid, pending, n, |entries.subjects|);
      if n < m {
        CutThere(config, entries, filter, sid, pending, n, m);
      }
    }
  }

  lemma {:induction false} CutThere(config: Config, entries: Cache, filter: Slice, sid: Slice, pending: nat, n: nat, m: nat)
    requires n < m <= |entries.subjects| == |entries.payloads|
    requires ReplayCut(config, entries, filter, sid, pending, n)
    ensures pending + |Replay(config, entries, filter, sid, m)| > MAX_PENDING && Replay(config, entries, filter, sid, m) != []
  {
    ReplayNext(config, entries, filter, sid, n);
    ReplayGrows(config, entries, filter, sid, n + 1, m);
  }

  lemma {:induction false} ReplayNext(config: Config, entries: Cache, filter: Slice, sid: Slice, n: nat)
    requires n < |entries.subjects| == |entries.payloads|
    ensures |Replay(config, entries, filter, sid, n + 1)| ==
      |Replay(config, entries, filter, sid, n)| + |ReplayPart(config, entries, filter, sid, n)|
  {
  }

  ghost function ReplayParts(config: Config, entries: Cache, filter: Slice, sid: Slice): nat -> Slice
    requires |entries.subjects| == |entries.payloads|
  {
    (i: nat) => if i < |entries.subjects| then ReplayPart(config, entries, filter, sid, i) else []
  }

  ghost function Replays(config: Config, entries: Cache, filter: Slice, sid: Slice): nat -> Slice
    requires |entries.subjects| == |entries.payloads|
  {
    (i: nat) => if i <= |entries.subjects| then Replay(config, entries, filter, sid, i) else []
  }

  lemma {:induction false} ReplaySteps(config: Config, entries: Cache, filter: Slice, sid: Slice)
    requires |entries.subjects| == |entries.payloads|
    ensures var part, sent := ReplayParts(config, entries, filter, sid), Replays(config, entries, filter, sid);
      sent(0) == [] && (forall i :: 0 <= i < |entries.subjects| ==> sent(i + 1) == sent(i) + part(i)) &&
      (forall i :: 0 <= i <= |entries.subjects| ==> sent(i) == Replay(config, entries, filter, sid, i))
  {
  }

  lemma {:induction false} ReplayGrows(config: Config, entries: Cache, filter: Slice, sid: Slice, n: nat, m: nat)
    requires n <= m <= |entries.subjects| == |entries.payloads|
    ensures |Replay(config, entries, filter, sid, n)| <= |Replay(config, entries, filter, sid, m)|
    decreases m
  {
    if n < m {
      ReplayGrows(config, entries, filter, sid, n, m - 1);
    }
  }

  lemma {:induction false} AddedKept(conns: Conns, total: nat, epoch: nat, all: seq<Sub>, all': seq<Sub>, sub: Sub)
    requires Kept(conns, total, epoch, all) && SubOk(sub) && sub.conn in conns
    requires conns[sub.conn].subCount < MAX_SUBS_PER_CONN && total < MAX_SUBS_TOTAL
    requires multiset(all') == multiset(all) + multiset{sub}
    ensures Kept(OneMore(conns, sub.conn), total + 1, epoch, all')
  {
    assert |multiset(all')| == |multiset(all)| + 1;
    forall s | s in all'
      ensures SubOk(s) && s.conn in conns
    {
      assert s in multiset(all');
    }
    assert multiset(all') == multiset([sub] + all);
    forall c | c in conns
      ensures Count(all', c) == Count(all, c) + if c == sub.conn then 1 else 0
    {
      CountPerm(all', [sub] + all, c);
    }
  }

  function Appended(conns: Conns, c: nat, bytes: Slice): Conns
    requires c in conns
  {
    conns[c := conns[c].(out := conns[c].out + bytes)]
  }

  lemma {:induction false} AppendedKept(conns: Conns, total: nat, epoch: nat, all: seq<Sub>, c: nat, bytes: Slice)
    requires Kept(conns, total, epoch, all) && c in conns
    ensures Kept(Appended(conns, c, bytes), total, epoch, all)
  {
  }

  /** What a subscribe that passed its checks does: it adds one entry, or drops all entries of its sid. */
  ghost predicate Entered(sub: Sub, all: seq<Sub>, all': seq<Sub>, was: Conns, now: Conns, config: Config, entries: Cache, ok: bool, n: nat)
    requires n <= |entries.subjects| == |entries.payloads|
  {
    sub.conn in was && ok == (sub.lvc ==> n == |entries.subjects|) &&
    (sub.lvc ==> ReplayCut(config, entries, sub.subject, sub.sid, |was[sub.conn].out|, n)) &&
    var sent := if sub.lvc then Replay(config, entries, sub.subject, sub.sid, n) else [];
    if ok then
      multiset(all') == multiset(all) + multiset{sub} &&
      now == (if sub.lvc then Appended(OneMore(was, sub.conn), sub.conn, sent) else OneMore(was, sub.conn))
    else
      multiset(all') == multiset(Sweep(all, Limit(sub.conn, sub.sid, None))) &&
      SameButCount(Appended(OneMore(was, sub.conn), sub.conn, sent), now)
  }

  /** It succeeds exactly when all cached values fit, and takes no buffer past the cap either way. */
  lemma {:induction false} EnteredMeans(sub: Sub, all: seq<Sub>, all': seq<Sub>, was: Conns, now: Conns, config: Config,
                                        entries: Cache, ok: bool, n: nat)
    requires n <= |entries.subjects| == |entries.payloads|
    requires Entered(sub, all, all', was, now, config, entries, ok, n)
    ensures sub.conn in was && ok == (sub.lvc ==> ReplayFits(config, entries, sub.subject, sub.sid, |was[sub.conn].out|))
    ensures now.Keys == was.Keys
    ensures forall c :: c in was && now[c].out != was[c].out ==> c == sub.conn && was[c].out <= now[c].out && |now[c].out| <= MAX_PENDING
  {
    if sub.lvc {
      CutIsLongest(config, entries, sub.subject, sub.sid, |was[sub.conn].out|, n, n);
    }
  }

  /** `emit_cached` with the cache enabled: `c` is sent the longest prefix that fits. */
  ghost predicate Replayed(was: Conns, now: Conns, config: Config, entries: Cache, c: nat, filter: Slice, sid: Slice, ok: bool, n: nat)
    requires |entries.subjects| == |entries.payloads|
  {
    c in was && n <= |entries.subjects| && (ok <==> n == |entries.subjects|) &&
    now == Appended(was, c, Replay(config, entries, filter, sid, n)) &&
    ReplayCut(config, entries, filter, sid, |was[c].out|, n)
  }

  lemma {:induction false} EnteredNew(sub: Sub, all: seq<Sub>, all': seq<Sub>, was: Conns, full: Conns, now: Conns, config: Config,
                                      entries: Cache, ok: bool, n: nat)
    requires |entries.subjects| == |entries.payloads| && sub.lvc && sub.conn in was
    requires Replayed(OneMore(was, sub.conn), full, config, entries, sub.conn, sub.subject, sub.sid, ok, n)
    requires if ok then now == full && multiset(all') == multiset(all) + multiset{sub}
      else SameButCount(full, now) && multiset(all') == multiset(Sweep(all, Limit(sub.conn, sub.sid, None)))
    ensures n <= |entries.subjects| && Entered(sub, all, all', was, now, config, entries, ok, n)
  {
  }

  lemma {:induction false} TakenBack(sub: Sub, all: seq<Sub>, mid: seq<Sub>, all': seq<Sub>, start: Conns, total: nat, conns: Conns, total': nat)
    requires multiset(mid) == multiset(all) + multiset{sub}
    requires SweptTo(mid, Limit(sub.conn, sub.sid, None), all', start, total, conns, total')
    ensures multiset(all') == multiset(Sweep(all, Limit(sub.conn, sub.sid, None)))
  {
    var rule := Limit(sub.conn, sub.sid, None);
    assert multiset([sub] + all) == multiset(mid);
    SweepPerm(mid, [sub] + all, rule);
    assert ([sub] + all)[1..] == all;
  }

  /** The entry a subscribe makes: `$LVC.` is a flag, not part of the filter. */
  function NewSub(c: nat, subject: Slice, queue: Slice, sid: Slice): Sub {
    var lvc := LVC_PREFIX <= subject;
    Sub(c, if lvc then subject[|LVC_PREFIX|..] else subject, queue, sid, 0, None, lvc)
  }

  /** Every field of the new entry; a subject that starts with `$LVC.` asks for last values of the rest. */
  lemma {:induction false} NewSubIs(c: nat, filter: Slice, queue: Slice, sid: Slice)
    ensures NewSub(c, LVC_PREFIX + filter, queue, sid) == Sub(c, filter, queue, sid, 0, None, true)
    ensures !(LVC_PREFIX <= filter) ==> NewSub(c, filter, queue, sid) == Sub(c, filter, queue, sid, 0, None, false)
  {
    assert (LVC_PREFIX + filter)[|LVC_PREFIX|..] == filter;
  }

  lemma {:induction false} EmptyInvalid(s: Slice)
    ensures s == [] ==> !SubjectValid(s, true)
  {
    if SubjectValid(s, true) {
      ValidShape(s, true);
    }
  }

  predicate Subscribable(conns: Conns, total: nat, config: Config, c: nat, subject: Slice, queue: Slice, sid: Slice) {
    var sub := NewSub(c, subject, queue, sid);
    c in conns && (sub.lvc ==> config.enabled) && SubOk(sub) && conns[c].subCount < MAX_SUBS_PER_CONN && total < MAX_SUBS_TOTAL
  }

  /** Dropping the entries of a sid leaves the list as it was exactly when there are none. */
  lemma {:induction false} TakeBackExact(all: seq<Sub>, c: nat, sid: Slice)
    ensures multiset(Sweep(all, Limit(c, sid, None))) == multiset(all) <==>
      forall s :: s in all ==> s.conn != c || s.sid != sid
  {
    var rule := Limit(c, sid, None);
    if forall s :: s in all ==> s.conn != c || s.sid != sid {
      Subscriptions.SweepAll(all, rule);
    } else {
      var s :| s in all && s.conn == c && s.sid == sid;
      if s in Sweep(all, rule) {
        var t := SweepFrom(all, rule, s);
      }
      assert s in multiset(all) && s !in multiset(Sweep(all, rule));
    }
  }

  /**
   A subscribe whose replay does not fit leaves the subscriptions as they were exactly when its
   connection had none with the same sid: taking it back goes by sid.
   */
  lemma {:induction false} FailedSubscribeExact(sub: Sub, all: seq<Sub>, all': seq<Sub>, was: Conns, now: Conns, config: Config,
                                                entries: Cache, n: nat)
    requires n <= |entries.subjects| == |entries.payloads|
    requires Entered(sub, all, all', was, now, config, entries, false, n)
    ensures multiset(all') == multiset(all) <==> forall s :: s in all ==> s.conn != sub.conn || s.sid != sub.sid
  {
    TakeBackExact(all, sub.conn, sub.sid);
  }

  /** The replay of a cached `foo` to a subscription of `>` has nothing to send before its one frame, and that does not fit a full buffer. */
  lemma {:induction false} FullBufferReplay(foo: Slice, payload: Slice, sid: Slice)
    ensures var config, entries := Config(true, [[GT]]), Cache([foo], [payload]);
      ReplayCut(config, entries, [GT], sid, MAX_PENDING, 0) && !ReplayFits(config, entries, [GT], sid, MAX_PENDING)
    ensures Replay(Config(true, [[GT]]), Cache([foo], [payload]), [GT], sid, 0) == []
  {
    var config, entries := Config(true, [[GT]]), Cache([foo], [payload]);
    TailMatchesAll(foo);
    assert SubjectEnabled(config, foo) by { assert Matches(config.filters[0], foo); }
    assert Replay(config, entries, [GT], sid, 0) == [];
    CutIsLongest(config, entries, [GT], sid, MAX_PENDING, 0, 1);
  }

  /** `>` can be subscribed to. */
  lemma {:induction false} TailSubscribable(sid: byte)
    requires 48 <= sid <= 57
    ensures SubjectValid([GT], true) && TokenValid([sid])
  {
    assert TokenEnd([GT]) == 1 by { assert [GT][1..] == []; }
    assert Split([GT]) == [TAIL_TOKEN];
  }

  /**
   One connection with a full buffer and a subscription `foo` under sid 1: a subscribe to `$LVC.>`
   under the same sid, with a value of `foo` cached, passes its checks; whatever it then does, it
   fails and loses the old subscription, and it can do that.
   */
  lemma {:induction false} TakeBackExample(out: Slice, all': seq<Sub>, now: Conns, ok: bool, n: nat)
    requires |out| == MAX_PENDING && n <= 1
    ensures var foo: Slice, sid: Slice, tail: Slice := [102, 111, 111], [49], [GT];
      var older, newer := NewSub(0, foo, [], sid), NewSub(0, LVC_PREFIX + tail, [], sid);
      var was := map[0 := Conn(out, 1, false, 0, 0, true, true, false)];
      var left := map[0 := Conn(out, 0, false, 0, 0, true, true, false)];
      var config, entries := Config(true, [tail]), Cache([foo], [[]]);
      newer == Sub(0, tail, [], sid, 0, None, true) &&
      Subscribable(was, 1, config, 0, LVC_PREFIX + tail, [], sid) &&
      Entered(newer, [older], [], was, left, config, entries, false, 0) &&
      (Entered(newer, [older], all', was, now, config, entries, ok, n) ==> !ok && all' == [])
  {
    var foo: Slice, sid: Slice, tail: Slice := [102, 111, 111], [49], [GT];
    var older, newer := NewSub(0, foo, [], sid), NewSub(0, LVC_PREFIX + tail, [], sid);
    var config, entries := Config(true, [tail]), Cache([foo], [[]]);
    var was := map[0 := Conn(out, 1, false, 0, 0, true, true, false)];
    assert (LVC_PREFIX + tail)[|LVC_PREFIX|..] == tail;
    TailSubscribable(49);
    FullBufferReplay(foo, [], sid);
    assert Sweep([older], Limit(0, sid, None)) == [];
    assert out + [] == out;
    if Entered(newer, [older], all', was, now, config, entries, ok, n) {
      EnteredMeans(newer, [older], all', was, now, config, entries, ok, n);
      assert |multiset(all')| == 0;
    }
  }

  lemma {:induction false} TailMatchesAll(s: Slice)
    ensures Matches([GT], s)
  {
    assert TokenEnd([GT]) == 1 by { assert [GT][1..] == []; }
    assert Split([GT]) == [TAIL_TOKEN];
  }

  predicate Publishable(subject: Slice, reply: Slice) {
    SubjectValid(subject, false) && (reply == [] || SubjectValid(reply, false)) && !(LVC_PREFIX <= subject)
  }

  /** When a publish goes through: its subject and reply are sound, and the cache takes it or does not care. */
  ghost predicate Admissible(config: Config, entries: Cache, subject: Slice, payload: Slice, reply: Slice)
    requires Bounded(entries)
  {
    Publishable(subject, reply) && (!Cached(config, subject) || Accepted(config, entries, subject, payload))
  }

  ghost function Remembered(config: Config, entries: Cache, subject: Slice, payload: Slice, reply: Slice): Cache
    requires Bounded(entries)
  {
    if Publishable(subject, reply) then Stored(config, entries, subject, payload) else entries
  }

  function FrameFor(was: Conns, m: Post): Sub -> Slice {
    (s: Sub) => if s.conn in was then Frame(was[s.conn].sse, s, m) else []
  }

  function FitsFor(config: Config, subject: Slice): Sub -> bool {
    (s: Sub) => Admits(config, subject, s)
  }

  function WantsFor(was: Conns, fits: Sub -> bool): Sub -> bool {
    (s: Sub) => Wanted(was, fits, s)
  }

  /** What a publish does to one connection: `sent` is what it got, `due` the most it could have got. */
  ghost predicate ConnAfter(was: Conn, now: Conn, sent: Slice, due: nat, kick: bool, close: bool) {
    now == was.(out := was.out + sent, subCount := now.subCount, closed := now.closed, kickSeen := now.kickSeen, closeSeen := now.closeSeen) &&
    |sent| <= due &&
    (was.closed ==> now.closed && sent == []) &&
    (sent != [] ==> |now.out| <= MAX_PENDING) &&
    (now.closed && !was.closed ==> due > 0 && |was.out| + due > MAX_PENDING) &&
    (close <==> was.closes && now.closed && !was.closed) &&
    (kick <==> was.kicks && sent != [] && !now.closed)
  }

  /**
   A whole publish against the list of all subscriptions: `marks` says who got it. Each connection's
   buffer grows by exactly the frames of its marked subscriptions in list order, and the kick and
   close callbacks are owed to exactly the connections written to and shut, once each.
   */
  ghost predicate Published(was: Conns, now: Conns, config: Config, m: Post, all: seq<Sub>, all': seq<Sub>, marks: seq<bool>,
                            closes: seq<nat>, kicks: seq<nat>) {
    var frame, wants := FrameFor(was, m), WantsFor(was, FitsFor(config, m.subject));
    now.Keys == was.Keys && Settled(all, marks, all') && Outcome(all, marks, wants, Shut(was, now)) &&
    HashIndex.Distinct(closes) && HashIndex.Distinct(kicks) &&
    (forall c :: c in closes || c in kicks ==> c in now) &&
    forall c :: c in now ==> ConnAfter(was[c], now[c], Sent(frame, all, marks, c), Due(frame, all, wants, c), c in kicks, c in closes)
  }

  lemma {:induction false} FanStarts(was: Conns, w: Net, total: nat, epoch: nat, config: Config, framing: Framing, m: Post,
                                     frame: Sub -> Slice, fits: Sub -> bool, wants: Sub -> bool, all: seq<Sub>)
    requires Kept(was, total, epoch, all) && w.conns == was && w.kicked == [] && w.closed == [] && w.epoch > epoch
    requires framing == Frame && frame == FrameFor(was, m) && fits == FitsFor(config, m.subject) && wants == WantsFor(was, fits)
    ensures Backed(was, total, all) && Scope(config, was, framing, m, frame, fits, wants, all)
    ensures Tracks(was, w, frame, [], [], wants)
  {
    forall c | c in w.conns
      ensures FollowsAt(was, w, frame, [], [], wants, c)
    {
      assert was[c].out + [] == was[c].out;
    }
  }

  /** The invariant afterwards. */
  lemma {:induction false} FanEnds(was: Conns, w: Net, frame: Sub -> Slice, wants: Sub -> bool,
                                   all: seq<Sub>, marks: seq<bool>, all': seq<Sub>, total: nat, total': nat, epoch: nat)
    requires Kept(was, total, epoch, all)
    requires Visited(was, w, frame, wants, all, marks, all') && total' + |all| == total + |all'|
    ensures Kept(w.conns, total', w.epoch, all') && total' <= total
  {
    SettledSound(all, marks, all');
    SettledFewer(all, marks, all');
    forall c | c in w.conns
      ensures w.conns[c].kickSeen <= w.epoch && w.conns[c].closeSeen <= w.epoch
      ensures w.conns[c].subCount == Count(all', c) <= was[c].subCount
    {
      assert FollowsAt(was, w, frame, all, marks, wants, c);
    }
    forall s | s in all'
      ensures s.conn in w.conns
    {
      var t := SettledFrom(all, marks, all', s);
    }
  }

  lemma {:induction false} FanPublished(was: Conns, w: Net, config: Config, m: Post, frame: Sub -> Slice, fits: Sub -> bool,
                                        wants: Sub -> bool, all: seq<Sub>, marks: seq<bool>, all': seq<Sub>,
                                        closes: seq<nat>, kicks: seq<nat>)
    requires Visited(was, w, frame, wants, all, marks, all')
    requires frame == FrameFor(was, m) && fits == FitsFor(config, m.subject) && wants == WantsFor(was, fits)
    requires HashIndex.Distinct(closes) && forall c :: c in closes <==> c in w.closed && c in w.conns && w.conns[c].closes
    requires HashIndex.Distinct(kicks) && forall c :: c in kicks <==> c in w.kicked && c in w.conns && w.conns[c].kicks && !w.conns[c].closed
    ensures Published(was, w.conns, config, m, all, all', marks, closes, kicks)
  {
    forall c | c in w.conns
      ensures ConnAfter(was[c], w.conns[c], Sent(frame, all, marks, c), Due(frame, all, wants, c), c in kicks, c in closes)
    {
      assert FollowsAt(was, w, frame, all, marks, wants, c);
    }
  }

  lemma {:induction false} BumpFrom(all: seq<Sub>, marks: seq<bool>, u: Sub) returns (t: Sub)
    requires |marks| == |all| && u in Bump(all, marks)
    ensures t in all && Identity(t, u)
  {
    var i :| 0 <= i < |all| && Bump(all, marks)[i] == u;
    t := all[i];
  }

  lemma {:induction false} SettledFrom(all: seq<Sub>, marks: seq<bool>, all': seq<Sub>, s: Sub) returns (t: Sub)
    requires Settled(all, marks, all') && s in all'
    ensures t in all && Identity(t, s) && !Expired(s)
  {
    var swept := Sweep(Bump(all, marks), EXPIRE);
    assert s in swept by { assert s in multiset(swept); }
    var u := SweepFrom(Bump(all, marks), EXPIRE, s);
    t := BumpFrom(all, marks, u);
  }

  lemma {:induction false} SettledSound(all: seq<Sub>, marks: seq<bool>, all': seq<Sub>)
    requires Settled(all, marks, all') && Sound(all)
    ensures Sound(all')
  {
    forall s | s in all'
      ensures SubOk(s)
    {
      var t := SettledFrom(all, marks, all', s);
      assert SubOk(t);
    }
  }

  lemma {:induction false} SweepCount(list: seq<Sub>, rule: Rule, c: nat)
    requires KeepsIdentity(rule)
    ensures Count(Sweep(list, rule), c) <= Count(list, c) && |Sweep(list, rule)| <= |list|
  {
    if list != [] {
      SweepCount(list[1..], rule, c);
      CountConcat(Swept(rule, list[0]), Sweep(list[1..], rule), c);
    }
  }

  lemma {:induction false} SettledFewer(all: seq<Sub>, marks: seq<bool>, all': seq<Sub>)
    requires Settled(all, marks, all')
    ensures |all'| <= |all| && forall c :: Count(all', c) <= Count(all, c)
  {
    var swept := Sweep(Bump(all, marks), EXPIRE);
    assert |multiset(all')| == |multiset(swept)|;
    SweepCount(Bump(all, marks), EXPIRE, 0);
    forall c: nat
      ensures Count(all', c) <= Count(all, c)
    {
      CountPerm(all', swept, c);
      SweepCount(Bump(all, marks), EXPIRE, c);
      BumpCount(all, marks, c);
    }
  }

  lemma {:induction false} BumpPlace(list: seq<Sub>, hits: seq<bool>, list': seq<Sub>, place: Place)
    requires Settled(list, hits, list') && RowAt(list, place)
    ensures RowAt(list', place)
  {
    assert RowAt(Bump(list, hits), place);
    SweepPlace(Bump(list, hits), list', EXPIRE, place);
  }

  // ----- what a publish means to its subscribers -----

  /** Every open connection has room for all it could be sent. */
  ghost predicate Roomy(was: Conns, frame: Sub -> Slice, all: seq<Sub>, wants: Sub -> bool) {
    forall c :: c in was && !was[c].closed ==> |was[c].out| + Due(frame, all, wants, c) <= MAX_PENDING
  }

  /** Exactly one member of the group of `s` got the message. */
  ghost predicate OneOf(all: seq<Sub>, marks: seq<bool>, s: Sub)
    requires |marks| == |all|
  {
    exists j :: 0 <= j < |all| && SameGroup(s, all[j]) && marks[j] &&
      forall i :: 0 <= i < |all| && SameGroup(s, all[i]) && marks[i] ==> i == j
  }

  /** With room everywhere, a publish is the linear scan: all plain matches, and one member of each matching group. */
  lemma {:induction false} PublishIsScan(was: Conns, now: Conns, config: Config, m: Post, all: seq<Sub>, all': seq<Sub>,
                                         marks: seq<bool>, closes: seq<nat>, kicks: seq<nat>)
    requires Published(was, now, config, m, all, all', marks, closes, kicks)
    requires Roomy(was, FrameFor(was, m), all, WantsFor(was, FitsFor(config, m.subject)))
    ensures |marks| == |all| && forall c :: c in was ==> now[c].closed == was[c].closed
    ensures var wants := WantsFor(was, FitsFor(config, m.subject));
      forall i :: 0 <= i < |all| ==>
        (if all[i].queue == [] then marks[i] == wants(all[i])
         else (marks[i] ==> wants(all[i])) && (wants(all[i]) ==> OneOf(all, marks, all[i])))
  {
    forall c | c in was
      ensures now[c].closed == was[c].closed
    {
      assert c in now;
    }
    QuietOutcome(all, marks, WantsFor(was, FitsFor(config, m.subject)), Shut(was, now));
  }

  lemma {:induction false} QuietOutcome(all: seq<Sub>, marks: seq<bool>, wants: Sub -> bool, shut: nat -> bool)
    requires Outcome(all, marks, wants, shut) && forall c :: !shut(c)
    ensures forall i :: 0 <= i < |all| ==>
      (if all[i].queue == [] then marks[i] == wants(all[i])
       else (marks[i] ==> wants(all[i])) && (wants(all[i]) ==> OneOf(all, marks, all[i])))
  {
    forall i | 0 <= i < |all| && all[i].queue != [] && wants(all[i])
      ensures OneOf(all, marks, all[i])
    {
      assert Served(all, marks, shut, all[i]);
      var j :| 0 <= j < |all| && SameGroup(all[i], all[j]) && (marks[j] || shut(all[j].conn));
      forall k | 0 <= k < |all| && SameGroup(all[i], all[k]) && marks[k]
        ensures k == j
      {
        assert SameGroup(all[j], all[k]) && SameGroup(all[k], all[j]);
      }
    }
  }

  /** A connection none of whose wanted entries is in a queue group is shut exactly when what it is due does not fit. */
  lemma {:induction false} ShutExactly(was: Conns, now: Conns, config: Config, m: Post, all: seq<Sub>, all': seq<Sub>,
                                       marks: seq<bool>, closes: seq<nat>, kicks: seq<nat>, c: nat)
    requires Published(was, now, config, m, all, all', marks, closes, kicks)
    requires c in was && !was[c].closed
    requires forall s :: s in all && s.conn == c && WantsFor(was, FitsFor(config, m.subject))(s) ==> s.queue == []
    ensures c in now
    ensures var due := Due(FrameFor(was, m), all, WantsFor(was, FitsFor(config, m.subject)), c);
      now[c].closed <==> due > 0 && |was[c].out| + due > MAX_PENDING
  {
    var frame, wants := FrameFor(was, m), WantsFor(was, FitsFor(config, m.subject));
    assert ConnAfter(was[c], now[c], Sent(frame, all, marks, c), Due(frame, all, wants, c), c in kicks, c in closes);
    if !now[c].closed {
      forall i | 0 <= i < |all| && all[i].conn == c && wants(all[i])
        ensures marks[i]
      {
        assert all[i] in all;
      }
      SentAll(frame, all, marks, wants, c);
    }
  }

  lemma {:induction false} SentAll(frame: Sub -> Slice, all: seq<Sub>, marks: seq<bool>, wants: Sub -> bool, c: nat)
    requires |marks| == |all| && OnlyWanted(all, marks, wants)
    requires forall i :: 0 <= i < |all| && all[i].conn == c && wants(all[i]) ==> marks[i]
    ensures |Sent(frame, all, marks, c)| == Due(frame, all, wants, c)
    decreases |all|
  {
    if all != [] {
      var n := |all| - 1;
      SentAll(frame, all[..n], marks[..n], wants, c);
    }
  }

  /** What a publish sends to connection `c`, one item for each delivered subscription. */
  function ItemsTo<M>(all: seq<Sub>, marks: seq<bool>, c: nat, item: Sub -> M): seq<M>
    requires |marks| == |all|
  {
    if all == [] then [] else
      var n := |all| - 1;
      ItemsTo(all[..n], marks[..n], c, item) + if marks[n] && all[n].conn == c then [item(all[n])] else []
  }

  /** To a connection that speaks the client protocol. */
  function MessageFor(m: Post): Sub -> Frames.Msg {
    (s: Sub) => Frames.Msg((if s.lvc then LVC_PREFIX else []) + m.subject, s.sid, m.reply, m.payload)
  }

  /** To a connection that listens to an event stream. */
  function EventFor(m: Post): Sub -> Frames.Sse {
    (s: Sub) => Frames.Sse((if s.lvc then LVC_PREFIX else []) + m.subject, m.payload)
  }

  lemma {:induction false} SentIsStream<M>(frame: Sub -> Slice, all: seq<Sub>, marks: seq<bool>, c: nat, item: Sub -> M, write: M -> Slice)
    requires |marks| == |all|
    requires forall s: Sub :: s.conn == c ==> frame(s) == write(item(s))
    ensures Sent(frame, all, marks, c) == Frames.Stream(write, ItemsTo(all, marks, c, item))
    decreases |all|
  {
    if all != [] {
      var n := |all| - 1;
      SentIsStream(frame, all[..n], marks[..n], c, item, write);
      if marks[n] && all[n].conn == c {
        Frames.StreamSnoc(write, ItemsTo(all[..n], marks[..n], c, item), item(all[n]));
      } else {
        assert ItemsTo(all, marks, c, item) == ItemsTo(all[..n], marks[..n], c, item);
        assert Sent(frame, all[..n], marks[..n], c) + [] == Sent(frame, all[..n], marks[..n], c);
      }
    }
  }

  lemma {:induction false} MessagesSendable(all: seq<Sub>, marks: seq<bool>, c: nat, m: Post)
    requires |marks| == |all| && Sound(all) && Publishable(m.subject, m.reply) && |m.payload| <= Wire.SIZE_MAX
    ensures forall x :: x in ItemsTo(all, marks, c, MessageFor(m)) ==> Frames.Sendable(x)
    decreases |all|
  {
    if all != [] {
      var n := |all| - 1;
      MessagesSendable(all[..n], marks[..n], c, m);
      assert SubOk(all[n]);
      ValidShape(m.subject, false);
      if m.reply != [] {
        ValidShape(m.reply, false);
      }
    }
  }

  /** A client that reads what a publish appended to its buffer gets one message per delivered subscription, in order. */
  lemma {:induction false} ClientReads(was: Conns, now: Conns, config: Config, m: Post, all: seq<Sub>, all': seq<Sub>,
                                       marks: seq<bool>, closes: seq<nat>, kicks: seq<nat>, c: nat)
    requires Published(was, now, config, m, all, all', marks, closes, kicks)
    requires Sound(all) && Publishable(m.subject, m.reply) && |m.payload| <= Wire.SIZE_MAX
    requires c in was && !was[c].sse
    ensures c in now && |marks| == |all| && was[c].out <= now[c].out
    ensures var ms := ItemsTo(all, marks, c, MessageFor(m));
      Frames.DecodeAll(Frames.DecodeMsg, now[c].out[|was[c].out|..], |ms|) == Some(ms)
  {
    var frame, ms := FrameFor(was, m), ItemsTo(all, marks, c, MessageFor(m));
    var wants := WantsFor(was, FitsFor(config, m.subject));
    assert ConnAfter(was[c], now[c], Sent(frame, all, marks, c), Due(frame, all, wants, c), c in kicks, c in closes);
    SentIsStream(frame, all, marks, c, MessageFor(m), Frames.MsgFrame);
    MessagesSendable(all, marks, c, m);
    Frames.MsgStreamDecodes(ms);
  }

  /**
   A browser that reads what a publish appended gets one event per delivered subscription, unless the
   payload has a NUL. It decodes the bytes as UTF-8 first, which changes nothing exactly when the
   subject and payload of these events are well-formed.
   */
  lemma {:induction false} BrowserReads(was: Conns, now: Conns, config: Config, m: Post, all: seq<Sub>, all': seq<Sub>,
                                        marks: seq<bool>, closes: seq<nat>, kicks: seq<nat>, c: nat)
    requires Published(was, now, config, m, all, all', marks, closes, kicks)
    requires c in was && was[c].sse
    ensures c in now && |marks| == |all| && was[c].out <= now[c].out
    ensures var es := Frames.Visible(ItemsTo(all, marks, c, EventFor(m)));
      Frames.DecodeAll(Frames.DecodeSse, now[c].out[|was[c].out|..], |es|) == Some(es) &&
      (Utf8.WellFormed(now[c].out[|was[c].out|..]) <==> Frames.AllText(es))
  {
    var frame, es := FrameFor(was, m), ItemsTo(all, marks, c, EventFor(m));
    var wants := WantsFor(was, FitsFor(config, m.subject));
    assert ConnAfter(was[c], now[c], Sent(frame, all, marks, c), Due(frame, all, wants, c), c in kicks, c in closes);
    SentIsStream(frame, all, marks, c, EventFor(m), Frames.SseFrame);
    Frames.SseStreamDecodes(es);
    Frames.SseStreamUtf8(es);
  }
}
