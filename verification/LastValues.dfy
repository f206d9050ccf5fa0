/** The last-value cache of `src/router.c`: a bounded map from subjects to payloads. */
module LastValues {
  import opened Bytes
  import opened Subjects
  import HashIndex

  const LVC_PREFIX: Slice := [36, 76, 86, 67, 46]             // $LVC.
  const STATS_PREFIX: Slice := [36, 83, 84, 65, 84, 83, 46]   // $STATS.
  const MAX_ENTRIES: nat := 65536
  const MAX_BYTES: nat := 64 * 1024 * 1024

  // ----- the reference: what a store may do to a cache -----

  datatype Config = Config(enabled: bool, filters: seq<Slice>)

  predicate SubjectEnabled(c: Config, subject: Slice) {
    c.enabled && exists i :: 0 <= i < |c.filters| && Matches(c.filters[i], subject)
  }

  predicate StatsEnabled(c: Config, subject: Slice) {
    c.enabled && exists i :: 0 <= i < |c.filters| && STATS_PREFIX <= c.filters[i] && Matches(c.filters[i], subject)
  }

  /** Statistics are only cached for a filter that names them; `$LVC.` subjects never are. */
  predicate Cached(c: Config, subject: Slice) {
    !(LVC_PREFIX <= subject) &&
    if STATS_PREFIX <= subject then StatsEnabled(c, subject) else SubjectEnabled(c, subject)
  }

  /** Entries in insertion order. */
  datatype Cache = Cache(subjects: seq<Slice>, payloads: seq<Slice>)

  function SumLen(ps: seq<Slice>): nat {
    if ps == [] then 0 else SumLen(ps[..|ps| - 1]) + |ps[|ps| - 1]|
  }

  ghost predicate Bounded(m: Cache) {
    |m.subjects| == |m.payloads| && HashIndex.Distinct(m.subjects) &&
    |m.subjects| <= MAX_ENTRIES && SumLen(m.payloads) <= MAX_BYTES
  }

  ghost function View(m: Cache): map<Slice, Slice>
    requires Bounded(m)
  {
    map s | s in m.subjects :: m.payloads[Find(m.subjects, s)]
  }

  function Find(subjects: seq<Slice>, s: Slice): (i: nat)
    requires s in subjects
    ensures i < |subjects| && subjects[i] == s
  {
    if subjects[0] == s then 0 else 1 + Find(subjects[1..], s)
  }

  function OldLen(m: Cache, subject: Slice): nat
    requires |m.subjects| == |m.payloads|
  {
    if subject in m.subjects then |m.payloads[Find(m.subjects, subject)]| else 0
  }

  /** Whether a store of a cacheable subject fits: one entry more at most, and the bytes that change. */
  ghost predicate Fits(m: Cache, subject: Slice, payload: Slice)
    requires |m.subjects| == |m.payloads|
  {
    (subject in m.subjects || |m.subjects| < MAX_ENTRIES) &&
    SumLen(m.payloads) - OldLen(m, subject) + |payload| <= MAX_BYTES
  }

  ghost predicate Accepted(c: Config, m: Cache, subject: Slice, payload: Slice)
    requires |m.subjects| == |m.payloads|
  {
    Cached(c, subject) && SubjectValid(subject, false) && Fits(m, subject, payload)
  }

  /** Overwrite the entry of `subject`, or append one. */
  function Put(m: Cache, subject: Slice, payload: Slice): Cache
    requires |m.subjects| == |m.payloads|
  {
    if subject in m.subjects then Cache(m.subjects, m.payloads[Find(m.subjects, subject) := payload])
    else Cache(m.subjects + [subject], m.payloads + [payload])
  }

  lemma {:induction false} PutIsUpdate(m: Cache, subject: Slice, payload: Slice)
    requires Bounded(m) && Fits(m, subject, payload)
    ensures Bounded(Put(m, subject, payload))
    ensures SumLen(Put(m, subject, payload).payloads) == SumLen(m.payloads) - OldLen(m, subject) + |payload|
    ensures View(Put(m, subject, payload)) == View(m)[subject := payload]
  {
    if subject in m.subjects {
      var i := Find(m.subjects, subject);
      SumLenUpdate(m.payloads, i, payload);
      ViewUpdate(m, i, payload);
    } else {
      ViewAppend(m, subject, payload);
    }
  }

  /** Where the entry is written. */
  lemma {:induction false} PutAt(m: Cache, subject: Slice, payload: Slice, i: int)
    requires Bounded(m) && -1 <= i < |m.subjects|
    requires if i >= 0 then m.subjects[i] == subject else subject !in m.subjects
    ensures Put(m, subject, payload) ==
      if i >= 0 then Cache(m.subjects, m.payloads[i := payload])
      else Cache(m.subjects + [subject], (m.payloads + [[]])[|m.payloads| := payload])
  {
    if i >= 0 {
      FindUnique(m.subjects, subject, i);
    } else {
      assert (m.payloads + [[]])[|m.payloads| := payload] == m.payloads + [payload];
    }
  }

  /** The cache after one call: the accepted store is the only thing that changes it. */
  ghost function Stored(c: Config, m: Cache, subject: Slice, payload: Slice): (m': Cache)
    requires Bounded(m)
    ensures Bounded(m')
    ensures View(m') == if Accepted(c, m, subject, payload) then View(m)[subject := payload] else View(m)
  {
    if Accepted(c, m, subject, payload) then PutIsUpdate(m, subject, payload); Put(m, subject, payload) else m
  }

  lemma {:induction false} SumLenUpdate(ps: seq<Slice>, i: nat, p: Slice)
    requires i < |ps|
    ensures SumLen(ps[i := p]) == SumLen(ps) - |ps[i]| + |p|
    ensures SumLen(ps) >= |ps[i]|
  {
    var n := |ps| - 1;
    if i == n {
      assert ps[i := p][..n] == ps[..n];
    } else {
      SumLenUpdate(ps[..n], i, p);
      assert ps[i := p][..n] == ps[..n][i := p];
    }
  }

  lemma {:induction false} FindUnique(subjects: seq<Slice>, s: Slice, i: nat)
    requires HashIndex.Distinct(subjects) && i < |subjects| && subjects[i] == s
    ensures Find(subjects, s) == i
  {
  }

  lemma {:induction false} ViewUpdate(m: Cache, i: nat, p: Slice)
    requires Bounded(m) && i < |m.subjects|
    requires SumLen(m.payloads[i := p]) <= MAX_BYTES
    ensures View(Cache(m.subjects, m.payloads[i := p])) == View(m)[m.subjects[i] := p]
  {
    var m' := Cache(m.subjects, m.payloads[i := p]);
    FindUnique(m.subjects, m.subjects[i], i);
    assert View(m').Keys == View(m)[m.subjects[i] := p].Keys;
  }

  lemma {:induction false} ViewAppend(m: Cache, subject: Slice, p: Slice)
    requires Bounded(m) && subject !in m.subjects && |m.subjects| < MAX_ENTRIES
    requires SumLen(m.payloads) + |p| <= MAX_BYTES
    ensures Bounded(Cache(m.subjects + [subject], m.payloads + [p]))
    ensures SumLen(m.payloads + [p]) == SumLen(m.payloads) + |p|
    ensures View(Cache(m.subjects + [subject], m.payloads + [p])) == View(m)[subject := p]
  {
    var m' := Cache(m.subjects + [subject], m.payloads + [p]);
    assert m'.payloads[..|m.payloads|] == m.payloads;
    forall s | s in m'.subjects
      ensures m'.payloads[Find(m'.subjects, s)] == if s == subject then p else m.payloads[Find(m.subjects, s)]
    {
      FindAppend(m.subjects, subject, s);
    }
    assert View(m').Keys == View(m)[subject := p].Keys;
  }

  lemma {:induction false} FindAppend(subjects: seq<Slice>, subject: Slice, s: Slice)
    requires HashIndex.Distinct(subjects) && subject !in subjects && s in subjects + [subject]
    ensures HashIndex.Distinct(subjects + [subject])
    ensures Find(subjects + [subject], s) == if s == subject then |subjects| else Find(subjects, s)
  {
    FindUnique(subjects + [subject], s, if s == subject then |subjects| else Find(subjects, s));
  }

  // ----- every run of stores -----

  datatype Store = Store(subject: Slice, payload: Slice)

  ghost function Run(c: Config, m: Cache, stores: seq<Store>): (m': Cache)
    requires Bounded(m)
    ensures Bounded(m')
  {
    if stores == [] then m
    else
      var n := |stores| - 1;
      Stored(c, Run(c, m, stores[..n]), stores[n].subject, stores[n].payload)
  }

  /** Which stores of the run were accepted. */
  ghost function Verdicts(c: Config, m: Cache, stores: seq<Store>): (v: seq<bool>)
    requires Bounded(m)
    ensures |v| == |stores|
  {
    if stores == [] then []
    else
      var n := |stores| - 1;
      Verdicts(c, m, stores[..n]) + [Accepted(c, Run(c, m, stores[..n]), stores[n].subject, stores[n].payload)]
  }

  /** The latest accepted store of `s` is number `i`. */
  predicate LastAccepted(verdicts: seq<bool>, stores: seq<Store>, s: Slice, i: nat)
    requires |verdicts| == |stores|
  {
    i < |stores| && verdicts[i] && stores[i].subject == s &&
    forall j :: i < j < |stores| && verdicts[j] ==> stores[j].subject != s
  }

  /** Some accepted store of `s` is the latest one and carries `p`. */
  ghost predicate LastCarries(verdicts: seq<bool>, stores: seq<Store>, s: Slice, p: Slice)
    requires |verdicts| == |stores|
  {
    exists i: nat :: LastAccepted(verdicts, stores, s, i) && stores[i].payload == p
  }

  lemma {:induction false} LastCarriesSnoc(verdicts: seq<bool>, stores: seq<Store>, s: Slice, p: Slice)
    requires |verdicts| == |stores| > 0
    ensures var n := |stores| - 1;
      LastCarries(verdicts, stores, s, p) <==>
      if verdicts[n] && stores[n].subject == s then stores[n].payload == p
      else LastCarries(verdicts[..n], stores[..n], s, p)
  {
    var n := |stores| - 1;
    if verdicts[n] && stores[n].subject == s {
      assert LastAccepted(verdicts, stores, s, n);
    } else {
      forall i: nat
        ensures LastAccepted(verdicts, stores, s, i) <==> LastAccepted(verdicts[..n], stores[..n], s, i)
      {
      }
    }
  }

  const EMPTY_CACHE: Cache := Cache([], [])

  /** Every entry is one that this configuration caches. */
  predicate Filled(c: Config, m: Cache) {
    forall i :: 0 <= i < |m.subjects| ==> Cached(c, m.subjects[i]) && SubjectValid(m.subjects[i], false)
  }

  /** A cache filled by stores under one configuration only holds what that configuration caches. */
  lemma {:induction false} RunFilled(c: Config, stores: seq<Store>)
    ensures Filled(c, Run(c, EMPTY_CACHE, stores))
    decreases |stores|
  {
    if stores != [] {
      RunFilled(c, stores[..|stores| - 1]);
    }
  }

  /** After any run from the empty cache, a subject holds the payload of its last accepted store, and nothing otherwise. */
  lemma {:induction false} LatestIsLastAccepted(c: Config, stores: seq<Store>, s: Slice, p: Slice)
    ensures Bounded(EMPTY_CACHE)
    ensures var v := View(Run(c, EMPTY_CACHE, stores));
      s in v && v[s] == p <==> LastCarries(Verdicts(c, EMPTY_CACHE, stores), stores, s, p)
    decreases |stores|
  {
    if stores != [] {
      var n := |stores| - 1;
      LatestIsLastAccepted(c, stores[..n], s, p);
      LastCarriesSnoc(Verdicts(c, EMPTY_CACHE, stores), stores, s, p);
      assert Verdicts(c, EMPTY_CACHE, stores)[..n] == Verdicts(c, EMPTY_CACHE, stores[..n]);
    }
  }

  // ----- the code -----

  class Lvc {
    var config: Config
    const index: HashIndex.Index<Slice>
    var payloads: seq<Slice>
    var payloadBytes: nat

    ghost function Entries(): Cache
      reads this, index
    {
      Cache(index.keys, payloads)
    }

    ghost predicate Valid()
      reads this, index, index.cells
    {
      index.Valid() && Bounded(Entries()) && payloadBytes == SumLen(payloads)
    }

    constructor (hash: Slice -> nat)
      ensures Valid() && fresh(index) && fresh(index.cells)
      ensures Entries() == EMPTY_CACHE && config == Config(false, [])
    {
      config := Config(false, []);
      index := new HashIndex.Index(hash);
      payloads, payloadBytes := [], 0;
    }

    /** `mb_router_configure_lvc`. */
    method Configure(filters: seq<Slice>) returns (ok: bool)
      requires Valid()
      modifies this`config
      ensures Valid()
      ensures ok <==> forall f :: f in filters ==> SubjectValid(f, true)
      ensures config == if ok && filters != [] then Config(true, filters) else Config(false, [])
    {
      config := Config(false, []);
      for i := 0 to |filters|
        invariant config == Config(false, [])
        invariant forall j :: 0 <= j < i ==> SubjectValid(filters[j], true)
      {
        var v := CheckSubjectValid(filters[i], true);
        if !v {
          return false;
        }
      }
      if |filters| > 0 {
        config := Config(true, filters);
      }
      ok := true;
    }

    /** `lvc_subject_enabled` and `lvc_stats_subject_enabled`. */
    method FilterMatches(subject: Slice, stats: bool) returns (b: bool)
      ensures b == if stats then StatsEnabled(config, subject) else SubjectEnabled(config, subject)
    {
      if !config.enabled {
        return false;
      }
      for i := 0 to |config.filters|
        invariant forall j :: 0 <= j < i ==>
          !(Matches(config.filters[j], subject) && (stats ==> STATS_PREFIX <= config.filters[j]))
      {
        var m := SubjectMatches(config.filters[i], subject);
        if m && (!stats || STATS_PREFIX <= config.filters[i]) {
          return true;
        }
      }
      b := false;
    }

    /** The new entry of `lvc_store`, still without its payload. */
    method Create(subject: Slice) returns (at: nat)
      requires index.Valid() && subject !in index.keys && |payloads| == |index.keys|
      modifies this`payloads, index`keys, index`cells, index`at, index.cells
      ensures index.Valid() && (index.cells == old(index.cells) || fresh(index.cells))
      ensures index.keys == old(index.keys) + [subject] && payloads == old(payloads) + [[]] && at == |old(index.keys)|
    {
      var i := index.Bucket(subject, true);
      at := |index.keys| - 1;
      payloads := payloads + [[]];
    }

    /** The part of `lvc_store` that writes: `i` is the entry found, or -1. */
    method Write(subject: Slice, payload: Slice, i: int, base: nat)
      requires Valid() && Fits(Entries(), subject, payload)
      requires -1 <= i < |index.keys| && (i >= 0 ==> index.keys[i] == subject) && (i < 0 ==> subject !in index.keys)
      requires base == payloadBytes - OldLen(Entries(), subject)
      modifies this`payloads, this`payloadBytes, index`keys, index`cells, index`at, index.cells
      ensures Valid() && (index.cells == old(index.cells) || fresh(index.cells))
      ensures Entries() == Put(old(Entries()), subject, payload)
    {
      ghost var m := Entries();
      PutIsUpdate(m, subject, payload);
      PutAt(m, subject, payload, i);
      var at := i;
      if i < 0 {
        at := Create(subject);
      }
      payloads := payloads[at := payload];
      payloadBytes := base + |payload|;
      assert Entries() == Put(m, subject, payload);
    }

    /** The checks of `lvc_store`: the entry found, or -1, and the bytes the others hold. */
    method Decide(subject: Slice, payload: Slice) returns (ok: bool, i: int, base: nat)
      requires Valid() && Cached(config, subject)
      ensures ok <==> Accepted(config, Entries(), subject, payload)
      ensures -1 <= i < |index.keys|
      ensures ok ==> (if i >= 0 then index.keys[i] == subject else subject !in index.keys)
      ensures ok ==> base == payloadBytes - OldLen(Entries(), subject)
    {
      i, base := -1, 0;
      var valid := CheckSubjectValid(subject, false);
      if !valid {
        return false, -1, 0;
      }
      i := index.Find(subject);
      var oldLen := 0;
      if i >= 0 {
        FindUnique(index.keys, subject, i);
        SumLenUpdate(payloads, i, payload);
        oldLen := |payloads[i]|;
      }
      base := payloadBytes - oldLen;
      ok := |payload| <= MAX_BYTES - base && (i >= 0 || |index.keys| < MAX_ENTRIES);
    }

    /** `lvc_store`: true for a subject that is not cached, false when the store is refused. */
    method StoreValue(subject: Slice, payload: Slice) returns (ok: bool)
      requires Valid()
      modifies this`payloads, this`payloadBytes, index`keys, index`cells, index`at, index.cells
      ensures Valid() && (index.cells == old(index.cells) || fresh(index.cells))
      ensures Entries() == Stored(config, old(Entries()), subject, payload)
      ensures ok <==> !Cached(config, subject) || Accepted(config, old(Entries()), subject, payload)
    {
      if LVC_PREFIX <= subject {
        return true;
      }
      var enabled := FilterMatches(subject, STATS_PREFIX <= subject);
      if !enabled {
        return true;
      }
      var i, base;
      ok, i, base := Decide(subject, payload);
      if ok {
        Write(subject, payload, i, base);
      }
    }

    /** `mb_router_lvc_latest`. */
    method Latest(subject: Slice) returns (r: Option<Slice>)
      requires Valid()
      ensures r == if SubjectValid(subject, false) && SubjectEnabled(config, subject) && subject in View(Entries())
                   then Some(View(Entries())[subject]) else None
    {
      var valid := CheckSubjectValid(subject, false);
      var enabled := FilterMatches(subject, false);
      if !valid || !enabled {
        return None;
      }
      var i := index.Find(subject);
      if i < 0 {
        return None;
      }
      FindUnique(index.keys, subject, i);
      r := Some(payloads[i]);
    }
  }
}
