/**
 Subscriptions as `src/router.c` keeps them: lists edited in place with swap-remove, grouped into
 hash-indexed buckets. A list is only ever known up to order, so results are stated on multisets.
 */
module Subscriptions {
  import opened Bytes
  import opened Subjects
  import HashIndex

  /** `mb_subscription`: `subject` is the filter without the `$LVC.` prefix that `lvc` stands for. */
  datatype Sub = Sub(conn: nat, subject: Slice, queue: Slice, sid: Slice, delivered: nat, max: Option<nat>, lvc: bool)

  // ----- counting -----

  function Count(list: seq<Sub>, c: nat): nat {
    if list == [] then 0 else (if list[0].conn == c then 1 else 0) + Count(list[1..], c)
  }

  lemma {:induction false} CountConcat(a: seq<Sub>, b: seq<Sub>, c: nat)
    ensures Count(a + b, c) == Count(a, c) + Count(b, c)
  {
    if a == [] {
      assert a + b == b;
    } else {
      assert (a + b)[1..] == a[1..] + b;
      CountConcat(a[1..], b, c);
    }
  }

  /** The first entry of `a` somewhere in a rearrangement of it, and what is left of both. */
  lemma {:induction false} PermSplit<T>(a: seq<T>, b: seq<T>) returns (j: nat)
    requires a != [] && multiset(a) == multiset(b)
    ensures j < |b| && b == b[..j] + ([a[0]] + b[j + 1..])
    ensures multiset(a[1..]) == multiset(b[..j] + b[j + 1..])
  {
    assert a[0] in multiset(b);
    j :| 0 <= j < |b| && b[j] == a[0];
    assert b == b[..j] + ([a[0]] + b[j + 1..]);
    assert a == [a[0]] + a[1..];
    assert multiset(a[1..]) == multiset(a) - multiset{a[0]};
    assert multiset(b[..j] + b[j + 1..]) == multiset(b) - multiset{a[0]};
  }

  /** How many subscriptions a connection owns does not depend on their order. */
  lemma {:induction false} CountPerm(a: seq<Sub>, b: seq<Sub>, c: nat)
    requires multiset(a) == multiset(b)
    ensures Count(a, c) == Count(b, c)
    decreases |a|
  {
    if a == [] {
      assert |multiset(b)| == 0;
    } else {
      var j := PermSplit(a, b);
      CountPerm(a[1..], b[..j] + b[j + 1..], c);
      CountConcat(b[..j], b[j + 1..], c);
      CountConcat(b[..j], [a[0]] + b[j + 1..], c);
      CountConcat([a[0]], b[j + 1..], c);
    }
  }

  // ----- sweeping a list -----

  /** What a sweep does with an entry: drop it, or keep it as given. */
  type Rule = Sub -> Option<Sub>

  function Swept(rule: Rule, s: Sub): seq<Sub> {
    match rule(s) case None => [] case Some(t) => [t]
  }

  function Sweep(list: seq<Sub>, rule: Rule): seq<Sub> {
    if list == [] then [] else Swept(rule, list[0]) + Sweep(list[1..], rule)
  }

  /** Entries may be dropped or have their counters changed; what they are indexed by stays. */
  ghost predicate KeepsIdentity(rule: Rule) {
    forall s :: rule(s).Some? ==> Identity(s, rule(s).value)
  }

  predicate Identity(s: Sub, t: Sub) {
    t.conn == s.conn && t.subject == s.subject && t.queue == s.queue && t.sid == s.sid && t.lvc == s.lvc
  }

  lemma {:induction false} SweepConcat(a: seq<Sub>, b: seq<Sub>, rule: Rule)
    ensures Sweep(a + b, rule) == Sweep(a, rule) + Sweep(b, rule)
  {
    if a == [] {
      assert a + b == b;
    } else {
      assert (a + b)[1..] == a[1..] + b;
      SweepConcat(a[1..], b, rule);
    }
  }

  /** A sweep does not depend on the order of the list either. */
  lemma {:induction false} SweepPerm(a: seq<Sub>, b: seq<Sub>, rule: Rule)
    requires multiset(a) == multiset(b)
    ensures multiset(Sweep(a, rule)) == multiset(Sweep(b, rule))
    decreases |a|
  {
    if a == [] {
      assert |multiset(b)| == 0;
    } else {
      var j := PermSplit(a, b);
      SweepPerm(a[1..], b[..j] + b[j + 1..], rule);
      SweepConcat(b[..j], b[j + 1..], rule);
      SweepConcat(b[..j], [a[0]] + b[j + 1..], rule);
      SweepConcat([a[0]], b[j + 1..], rule);
    }
  }

  lemma {:induction false} SweepFrom(list: seq<Sub>, rule: Rule, t: Sub) returns (s: Sub)
    requires t in Sweep(list, rule)
    ensures s in list && rule(s) == Some(t)
  {
    if rule(list[0]) == Some(t) {
      s := list[0];
    } else {
      s := SweepFrom(list[1..], rule, t);
    }
  }

  lemma {:induction false} SweepAll(list: seq<Sub>, rule: Rule)
    requires forall s :: s in list ==> rule(s) == Some(s)
    ensures Sweep(list, rule) == list
  {
    if list != [] {
      SweepAll(list[1..], rule);
      assert list == [list[0]] + list[1..];
    }
  }

  /** One kept entry: the finished part grows by it. */
  lemma {:induction false} SweepKeep(list: seq<Sub>, i: nat, rule: Rule)
    requires i < |list| && rule(list[i]).Some?
    ensures var next := list[i := rule(list[i]).value];
      next[..i + 1] + Sweep(next[i + 1..], rule) == list[..i] + Sweep(list[i..], rule)
  {
    var next := list[i := rule(list[i]).value];
    assert list[i..][1..] == list[i + 1..] == next[i + 1..];
    assert next[..i + 1] == list[..i] + [rule(list[i]).value];
  }

  /** One dropped entry: the last entry takes its place among those still to be looked at. */
  lemma {:induction false} SweepDrop(list: seq<Sub>, i: nat, rule: Rule)
    requires i < |list| && rule(list[i]).None?
    ensures var next := HashIndex.SwapRemove(list, i);
      multiset(next[..i] + Sweep(next[i..], rule)) == multiset(list[..i] + Sweep(list[i..], rule))
  {
    var next, n := HashIndex.SwapRemove(list, i), |list| - 1;
    assert next[..i] == list[..i];
    if i < n {
      var mid, last := list[i + 1..n], [list[n]];
      assert list[i..] == [list[i]] + (mid + last);
      assert next[i..] == last + mid;
      SweepConcat([list[i]], mid + last, rule);
      SweepConcat(mid, last, rule);
      SweepConcat(last, mid, rule);
    } else {
      assert list[i..] == [list[i]];
      assert next[i..] == [];
    }
  }

  lemma {:induction false} CountDrop(list: seq<Sub>, i: nat, c: nat)
    requires i < |list|
    ensures Count(list, c) == Count(HashIndex.SwapRemove(list, i), c) + if list[i].conn == c then 1 else 0
  {
    var next := HashIndex.SwapRemove(list, i);
    HashIndex.SwapRemoveMultiset(list, i);
    assert list[i] in multiset(list);
    CountPerm(list, [list[i]] + next, c);
  }

  lemma {:induction false} CountUpdate(list: seq<Sub>, i: nat, s: Sub, c: nat)
    requires i < |list| && s.conn == list[i].conn
    ensures Count(list[i := s], c) == Count(list, c)
  {
    if i > 0 {
      assert list[i := s][1..] == list[1..][i - 1 := s];
      CountUpdate(list[1..], i - 1, s, c);
    }
  }

  lemma {:induction false} CountZero(list: seq<Sub>, c: nat)
    ensures Count(list, c) == 0 <==> forall s :: s in list ==> s.conn != c
  {
    if list != [] {
      CountZero(list[1..], c);
    }
  }

  // ----- how many entries a list has -----

  /** The number of entries that satisfy `p`. */
  function Tally(list: seq<Sub>, p: Sub -> bool): nat {
    if list == [] then 0 else (if p(list[0]) then 1 else 0) + Tally(list[1..], p)
  }

  function Is(t: Sub): Sub -> bool {
    (s: Sub) => s == t
  }

  lemma {:induction false} TallyIsCount(list: seq<Sub>, t: Sub)
    ensures Tally(list, Is(t)) == multiset(list)[t]
  {
    if list != [] {
      TallyIsCount(list[1..], t);
      assert list == [list[0]] + list[1..];
    }
  }

  lemma {:induction false} TallySame(list: seq<Sub>, p: Sub -> bool, q: Sub -> bool)
    requires forall s :: s in list ==> p(s) == q(s)
    ensures Tally(list, p) == Tally(list, q)
  {
    if list != [] {
      TallySame(list[1..], p, q);
    }
  }

  function Becomes(rule: Rule, t: Sub): Sub -> bool {
    (s: Sub) => rule(s) == Some(t)
  }

  /** What a sweep leaves of `t` are the entries that its rule makes `t`. */
  lemma {:induction false} SweepTally(list: seq<Sub>, rule: Rule, t: Sub)
    ensures multiset(Sweep(list, rule))[t] == Tally(list, Becomes(rule, t))
  {
    if list != [] {
      SweepTally(list[1..], rule, t);
      assert multiset(Swept(rule, list[0]))[t] == if rule(list[0]) == Some(t) then 1 else 0;
    }
  }

  // ----- where a filter is kept -----

  datatype Place = Literal(key: Slice) | Leading(key: Slice) | Anywhere

  function PlaceOf(filter: Slice): Place {
    if WildFree(filter) then Literal(filter)
    else if WildcardToken(First(filter)) then Anywhere
    else Leading(First(filter))
  }

  predicate RowAt(row: seq<Sub>, place: Place) {
    forall s :: s in row ==> PlaceOf(s.subject) == place
  }

  /** The places a published subject can be matched from. */
  predicate Reaches(subject: Slice, place: Place) {
    match place
    case Literal(key) => key == subject
    case Leading(key) => key == First(subject)
    case Anywhere => true
  }

  /** Looking in three places is enough, and the literal one needs no further check. */
  lemma {:induction false} MatchesPlace(filter: Slice, subject: Slice)
    requires SubjectValid(filter, true) && SubjectValid(subject, false)
    ensures Matches(filter, subject) ==> Reaches(subject, PlaceOf(filter))
    ensures PlaceOf(filter) == Literal(subject) ==> Matches(filter, subject)
  {
    if WildFree(filter) {
      LiteralMatchesItself(filter, subject);
    } else if !WildcardToken(First(filter)) && Matches(filter, subject) {
      NonLiteralFirst(filter);
      FirstTokenDecides(filter, subject);
    }
  }

  // ----- rows of lists -----

  ghost function Flat(rows: seq<seq<Sub>>): seq<Sub> {
    if rows == [] then [] else rows[0] + Flat(rows[1..])
  }

  lemma {:induction false} FlatConcat(a: seq<seq<Sub>>, b: seq<seq<Sub>>)
    ensures Flat(a + b) == Flat(a) + Flat(b)
  {
    if a == [] {
      assert a + b == b;
    } else {
      assert (a + b)[1..] == a[1..] + b;
      FlatConcat(a[1..], b);
      assert (a[0] + Flat(a[1..])) + Flat(b) == a[0] + (Flat(a[1..]) + Flat(b));
    }
  }

  /** A row and what lies around it. */
  lemma {:induction false} FlatAround(rows: seq<seq<Sub>>, k: nat, row: seq<Sub>)
    requires k < |rows|
    ensures Flat(rows[k := row]) == Flat(rows[..k]) + (row + Flat(rows[k + 1..]))
    ensures Flat(rows) == Flat(rows[..k]) + (rows[k] + Flat(rows[k + 1..]))
  {
    var pre, post := rows[..k], rows[k + 1..];
    assert rows[k := row] == pre + ([row] + post);
    FlatConcat(pre, [row] + post);
    assert ([row] + post)[1..] == post;
    assert rows == pre + ([rows[k]] + post);
    FlatConcat(pre, [rows[k]] + post);
    assert ([rows[k]] + post)[1..] == post;
  }

  lemma {:induction false} FlatMember(rows: seq<seq<Sub>>, s: Sub) returns (k: nat)
    requires s in Flat(rows)
    ensures k < |rows| && s in rows[k]
  {
    if s in rows[0] {
      k := 0;
    } else {
      k := FlatMember(rows[1..], s);
      k := k + 1;
    }
  }

  lemma {:induction false} FlatHas(rows: seq<seq<Sub>>, k: nat, s: Sub)
    requires k < |rows| && s in rows[k]
    ensures s in Flat(rows)
  {
    FlatAround(rows, k, rows[k]);
  }

  lemma {:induction false} FlatOne(row: seq<Sub>)
    ensures Flat([row]) == row
  {
    assert Flat([row]) == row + Flat([]);
  }

  lemma {:induction false} FlatExchange(row: seq<Sub>, mid: seq<seq<Sub>>, last: seq<Sub>)
    ensures multiset(Flat([row] + (mid + [last]))) == multiset(row) + multiset(Flat([last] + mid))
  {
    FlatOne(row);
    FlatOne(last);
    FlatConcat([row], mid + [last]);
    FlatConcat(mid, [last]);
    FlatConcat([last], mid);
  }

  lemma {:induction false} FlatExchangeAfter(pre: seq<seq<Sub>>, row: seq<Sub>, mid: seq<seq<Sub>>, last: seq<Sub>)
    ensures multiset(Flat(pre + ([last] + mid))) + multiset(row) == multiset(Flat(pre + ([row] + (mid + [last]))))
  {
    FlatConcat(pre, [row] + (mid + [last]));
    FlatConcat(pre, [last] + mid);
    FlatExchange(row, mid, last);
  }

  lemma {:induction false} SwapRemoveParts<T>(s: seq<T>, k: nat)
    requires k < |s| - 1
    ensures var n := |s| - 1;
      s == s[..k] + ([s[k]] + (s[k + 1..n] + [s[n]])) && HashIndex.SwapRemove(s, k) == s[..k] + ([s[n]] + s[k + 1..n])
  {
  }

  lemma {:induction false} FlatLast(rows: seq<seq<Sub>>)
    requires rows != []
    ensures var n := |rows| - 1; Flat(rows) == Flat(rows[..n]) + rows[n]
  {
    var n := |rows| - 1;
    assert rows == rows[..n] + [rows[n]];
    FlatConcat(rows[..n], [rows[n]]);
    FlatOne(rows[n]);
  }

  lemma {:induction false} FlatSwapRemove(rows: seq<seq<Sub>>, k: nat)
    requires k < |rows|
    ensures multiset(Flat(HashIndex.SwapRemove(rows, k))) + multiset(rows[k]) == multiset(Flat(rows))
  {
    var n := |rows| - 1;
    if k == n {
      FlatLast(rows);
    } else {
      SwapRemoveParts(rows, k);
      FlatExchangeAfter(rows[..k], rows[k], rows[k + 1..n], rows[n]);
    }
  }

  lemma {:induction false} FlatAdd(rows: seq<seq<Sub>>, k: nat, sub: Sub)
    requires k < |rows|
    ensures multiset(Flat(rows[k := rows[k] + [sub]])) == multiset(Flat(rows)) + multiset{sub}
  {
    FlatAround(rows, k, rows[k] + [sub]);
  }

  lemma {:induction false} FlatNone(rows: seq<seq<Sub>>)
    ensures Flat(rows + [[]]) == Flat(rows)
  {
    FlatConcat(rows, [[]]);
    FlatOne([]);
  }

  lemma {:induction false} FlatAddAt(was: seq<seq<Sub>>, rows: seq<seq<Sub>>, k: nat, sub: Sub)
    requires k <= |was| && rows == if k == |was| then was + [[]] else was
    ensures multiset(Flat(rows[k := rows[k] + [sub]])) == multiset(Flat(was)) + multiset{sub}
  {
    if k == |was| {
      FlatNone(was);
    }
    FlatAdd(rows, k, sub);
  }

  lemma {:induction false} SweepPlace(list: seq<Sub>, list': seq<Sub>, rule: Rule, place: Place)
    requires multiset(list') == multiset(Sweep(list, rule)) && KeepsIdentity(rule) && RowAt(list, place)
    ensures RowAt(list', place)
  {
    forall t | t in list'
      ensures PlaceOf(t.subject) == place
    {
      assert t in multiset(list');
      var s := SweepFrom(list, rule, t);
    }
  }

  lemma {:induction false} RowCounts(rows: seq<seq<Sub>>, k: nat, row: seq<Sub>)
    requires k < |rows|
    ensures |Flat(rows[k := row])| + |rows[k]| == |Flat(rows)| + |row|
    ensures forall c :: Count(Flat(rows[k := row]), c) + Count(rows[k], c) == Count(Flat(rows), c) + Count(row, c)
    ensures |rows[k]| <= |Flat(rows)| && forall c :: Count(rows[k], c) <= Count(Flat(rows), c)
  {
    FlatAround(rows, k, row);
    var pre, post := Flat(rows[..k]), Flat(rows[k + 1..]);
    forall c: nat
      ensures Count(Flat(rows[k := row]), c) == Count(pre, c) + Count(row, c) + Count(post, c)
      ensures Count(Flat(rows), c) == Count(pre, c) + Count(rows[k], c) + Count(post, c)
    {
      CountConcat(pre, row + post, c);
      CountConcat(row, post, c);
      CountConcat(pre, rows[k] + post, c);
      CountConcat(rows[k], post, c);
    }
  }

  lemma {:induction false} SwapRemoveTail<T>(s: seq<T>, k: nat)
    requires k < |s|
    ensures HashIndex.SwapRemove(s, k)[..k] == s[..k]
    ensures k == |s| - 1 ==> HashIndex.SwapRemove(s, k)[k..] == [] && s[k + 1..] == []
    ensures k < |s| - 1 ==>
      (var n := |s| - 1; HashIndex.SwapRemove(s, k)[k..] == [s[n]] + s[k + 1..n] && s[k + 1..] == s[k + 1..n] + [s[n]])
  {
  }

  /** One swept row: the finished rows grow by it. */
  lemma {:induction false} SweepRow(rows: seq<seq<Sub>>, k: nat, row: seq<Sub>, rule: Rule)
    requires k < |rows| && multiset(row) == multiset(Sweep(rows[k], rule))
    ensures var next := rows[k := row];
      multiset(Flat(next[..k + 1])) + multiset(Sweep(Flat(next[k + 1..]), rule)) ==
      multiset(Flat(rows[..k])) + multiset(Sweep(Flat(rows[k..]), rule))
  {
    var next := rows[k := row];
    assert next[..k + 1] == rows[..k] + [row] && next[k + 1..] == rows[k + 1..] && rows[k..][1..] == rows[k + 1..];
    FlatConcat(rows[..k], [row]);
    FlatOne(row);
    SweepConcat(rows[k], Flat(rows[k + 1..]), rule);
  }

  lemma {:induction false} SweepExchange(mid: seq<seq<Sub>>, last: seq<Sub>, rule: Rule)
    ensures multiset(Sweep(Flat([last] + mid), rule)) == multiset(Sweep(Flat(mid + [last]), rule))
  {
    FlatConcat([last], mid);
    FlatConcat(mid, [last]);
    FlatOne(last);
    SweepConcat(last, Flat(mid), rule);
    SweepConcat(Flat(mid), last, rule);
  }

  /** One emptied row is removed: the last row takes its place among those still to be looked at. */
  lemma {:induction false} SweepRowDrop(rows: seq<seq<Sub>>, k: nat, rule: Rule)
    requires k < |rows|
    ensures var next := HashIndex.SwapRemove(rows, k);
      Flat(next[..k]) == Flat(rows[..k]) &&
      multiset(Sweep(Flat(next[k..]), rule)) == multiset(Sweep(Flat(rows[k + 1..]), rule))
  {
    SwapRemoveTail(rows, k);
    if k < |rows| - 1 {
      SweepExchange(rows[k + 1..|rows| - 1], rows[|rows| - 1], rule);
    }
  }

  lemma {:induction false} DropEmptyRow(rows: seq<seq<Sub>>, k: nat)
    requires k < |rows| && rows[k] == []
    ensures multiset(Flat(HashIndex.SwapRemove(rows, k))) == multiset(Flat(rows))
    ensures |Flat(HashIndex.SwapRemove(rows, k))| == |Flat(rows)|
    ensures forall c :: Count(Flat(HashIndex.SwapRemove(rows, k)), c) == Count(Flat(rows), c)
  {
    var next := HashIndex.SwapRemove(rows, k);
    FlatSwapRemove(rows, k);
    assert |multiset(Flat(next))| == |multiset(Flat(rows))|;
    forall c: nat
      ensures Count(Flat(next), c) == Count(Flat(rows), c)
    {
      CountPerm(Flat(next), Flat(rows), c);
    }
  }

  /** A bucket array and the index over its keys. */
  class Buckets {
    const literal: bool
    const index: HashIndex.Index<Slice>
    var rows: seq<seq<Sub>>

    function At(key: Slice): Place {
      if literal then Literal(key) else Leading(key)
    }

    ghost predicate Valid()
      reads this, index, index.cells
    {
      index.Valid() && |rows| == |index.keys| &&
      forall k :: 0 <= k < |rows| ==> RowAt(rows[k], At(index.keys[k]))
    }

    ghost function All(): seq<Sub>
      reads this
    {
      Flat(rows)
    }

    constructor (literal: bool, hash: Slice -> nat)
      ensures Valid() && fresh(index) && fresh(index.cells) && rows == [] && this.literal == literal
    {
      this.literal := literal;
      index := new HashIndex.Index(hash);
      rows := [];
    }

    /** Find or create the bucket of `key` and append to its list. */
    method Add(key: Slice, sub: Sub)
      requires Valid() && PlaceOf(sub.subject) == At(key)
      modifies this`rows, index`keys, index`cells, index`at, index.cells
      ensures Valid() && (index.cells == old(index.cells) || fresh(index.cells))
      ensures multiset(All()) == multiset(old(All())) + multiset{sub}
    {
      var k := index.Bucket(key, true);
      ghost var was := rows;
      if k == |rows| {
        rows := rows + [[]];
      }
      FlatAddAt(was, rows, k, sub);
      rows := rows[k := rows[k] + [sub]];
    }

    /** Write back the list of bucket `i`, removing the bucket when that is empty; whether it was. */
    method SetRow(i: nat, row: seq<Sub>) returns (removed: bool)
      requires Valid() && i < |rows| && RowAt(row, At(index.keys[i]))
      modifies this`rows, index`keys, index`at, index.cells
      ensures Valid() && index.cells == old(index.cells)
      ensures removed <==> row == []
      ensures rows == if removed then HashIndex.SwapRemove(old(rows)[i := row], i) else old(rows)[i := row]
    {
      rows := rows[i := row];
      removed := |row| == 0;
      if removed {
        rows := HashIndex.SwapRemove(rows, i);
        index.RemoveAt(i);
      }
    }
  }
}
