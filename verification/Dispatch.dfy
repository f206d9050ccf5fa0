/** The first-token rule index of `src/patchbay/pb_program.c`, and the merge that dispatches a publish. */
module Dispatch {
  import opened Bytes
  import opened Subjects

  // ----- selections: the indexes below `n` that satisfy `p`, in order -----

  function Select(n: nat, p: nat -> bool): (s: seq<nat>)
    ensures forall i :: i in s ==> i < n && p(i)
  {
    if n == 0 then [] else Select(n - 1, p) + if p(n - 1) then [n - 1] else []
  }

  /** `Select` misses nothing and is strictly increasing. */
  lemma {:induction false} SelectComplete(n: nat, p: nat -> bool)
    ensures forall i :: 0 <= i < n && p(i) ==> i in Select(n, p)
    ensures forall i, j :: 0 <= i < j < |Select(n, p)| ==> Select(n, p)[i] < Select(n, p)[j]
  {
    if n > 0 {
      SelectComplete(n - 1, p);
      var s := Select(n - 1, p);
      assert forall i :: 0 <= i < |s| ==> s[i] in s;
    }
  }

  lemma {:induction false} SelectMonotone(k: nat, n: nat, p: nat -> bool)
    requires k <= n
    ensures Select(k, p) <= Select(n, p)
  {
    if k < n {
      SelectMonotone(k, n - 1, p);
    }
  }

  /** The entry after those below `k` is the next index that satisfies `p`. */
  lemma {:induction false} SelectNext(k: nat, n: nat, p: nat -> bool)
    requires k <= n
    ensures |Select(k, p)| <= |Select(n, p)|
    ensures |Select(k, p)| < |Select(n, p)| ==>
      var i := Select(n, p)[|Select(k, p)|]; k <= i < n && p(i) && forall j :: k <= j < i ==> !p(j)
    ensures |Select(k, p)| == |Select(n, p)| ==> forall j :: k <= j < n ==> !p(j)
  {
    if k < n {
      SelectNext(k, n - 1, p);
    }
  }

  /** Skipping indexes that do not satisfy `p` changes nothing. */
  lemma {:induction false} SelectSkip(k: nat, n: nat, p: nat -> bool)
    requires k <= n && forall j :: k <= j < n ==> !p(j)
    ensures Select(n, p) == Select(k, p)
  {
    if k < n {
      SelectSkip(k, n - 1, p);
    }
  }

  /** Moving past `rule`, with nothing selected between `k` and it. */
  lemma {:induction false} SelectStep(k: nat, rule: nat, p: nat -> bool)
    requires k <= rule && forall j :: k <= j < rule ==> !p(j)
    ensures Select(rule + 1, p) == Select(k, p) + if p(rule) then [rule] else []
  {
    SelectSkip(k, rule, p);
  }

  /** The smaller of the two next entries, as the merge picks it. */
  lemma {:induction false} NextOf(k: nat, n: nat, pb: nat -> bool, pg: nat -> bool) returns (b: nat, g: nat)
    requires k <= n
    ensures |Select(k, pb)| <= |Select(n, pb)| && |Select(k, pg)| <= |Select(n, pg)|
    ensures b == if |Select(k, pb)| < |Select(n, pb)| then Select(n, pb)[|Select(k, pb)|] else n
    ensures g == if |Select(k, pg)| < |Select(n, pg)| then Select(n, pg)[|Select(k, pg)|] else n
    ensures k <= b <= n && k <= g <= n && (b < n ==> pb(b)) && (g < n ==> pg(g))
    ensures forall j :: k <= j < b ==> !pb(j)
    ensures forall j :: k <= j < g ==> !pg(j)
  {
    SelectNext(k, n, pb);
    SelectNext(k, n, pg);
    b := if |Select(k, pb)| < |Select(n, pb)| then Select(n, pb)[|Select(k, pb)|] else n;
    g := if |Select(k, pg)| < |Select(n, pg)| then Select(n, pg)[|Select(k, pg)|] else n;
  }

  // ----- the index -----

  /** A filter that has no literal first token. */
  predicate IsGlobal(filter: Slice) {
    First(filter) == [] || WildcardToken(First(filter))
  }

  function GlobalRule(filters: seq<Slice>): nat -> bool {
    (i: nat) => i < |filters| && IsGlobal(filters[i])
  }

  function BucketRule(filters: seq<Slice>, key: Slice): nat -> bool {
    (i: nat) => i < |filters| && !IsGlobal(filters[i]) && First(filters[i]) == key
  }

  function MatchingRule(filters: seq<Slice>, subject: Slice): nat -> bool {
    (i: nat) => i < |filters| && Matches(filters[i], subject)
  }

  /** Each bucket lists the rules below `n` that start with its key, and every such rule has a bucket. */
  ghost predicate Bucketed(filters: seq<Slice>, n: nat, keys: seq<Slice>, buckets: seq<seq<nat>>)
    requires n <= |filters|
  {
    |keys| == |buckets| &&
    (forall a, b :: 0 <= a < b < |keys| ==> keys[a] != keys[b]) &&
    (forall i :: 0 <= i < n && !IsGlobal(filters[i]) ==> First(filters[i]) in keys) &&
    (forall b :: 0 <= b < |keys| ==> buckets[b] == Select(n, BucketRule(filters, keys[b])))
  }

  /** A global rule changes no bucket. */
  lemma {:induction false} BucketedGlobal(filters: seq<Slice>, n: nat, keys: seq<Slice>, buckets: seq<seq<nat>>)
    requires n < |filters| && Bucketed(filters, n, keys, buckets) && IsGlobal(filters[n])
    ensures Bucketed(filters, n + 1, keys, buckets)
  {
  }

  /** Any other rule is appended to the bucket of its first token. */
  lemma {:induction false} BucketedAppend(filters: seq<Slice>, n: nat, keys: seq<Slice>, buckets: seq<seq<nat>>, b: nat)
    requires n < |filters| && Bucketed(filters, n, keys, buckets) && !IsGlobal(filters[n])
    requires b < |keys| && keys[b] == First(filters[n])
    ensures Bucketed(filters, n + 1, keys, buckets[b := buckets[b] + [n]])
  {
    forall a | 0 <= a < |keys|
      ensures buckets[b := buckets[b] + [n]][a] == Select(n + 1, BucketRule(filters, keys[a]))
    {
      assert a != b ==> keys[a] != keys[b];
    }
  }

  class RuleIndex {
    const filters: seq<Slice>
    var keys: seq<Slice>
    var buckets: seq<seq<nat>>
    var global: seq<nat>

    /** The rules below `n` are indexed. */
    ghost predicate Indexed(n: nat)
      reads this
    {
      n <= |filters| && Bucketed(filters, n, keys, buckets) && global == Select(n, GlobalRule(filters))
    }

    ghost predicate Valid()
      reads this
    {
      Indexed(|filters|)
    }

    /** `build_rule_index`. */
    constructor (filters: seq<Slice>)
      ensures Valid() && this.filters == filters
    {
      this.filters := filters;
      keys, buckets, global := [], [], [];
      new;
      for i := 0 to |filters|
        invariant Indexed(i)
      {
        AddRule(i);
      }
    }

    /** `rule_bucket`: find the bucket of a key by linear scan, or append one. */
    method Bucket(key: Slice, ghost n: nat) returns (b: nat)
      requires Indexed(n)
      modifies this`keys, this`buckets
      ensures Indexed(n) && b < |keys| && keys[b] == key
    {
      for i := 0 to |keys|
        invariant key !in keys[..i]
      {
        if keys[i] == key {
          return i;
        }
      }
      SelectSkip(0, n, BucketRule(filters, key));
      b := |keys|;
      keys, buckets := keys + [key], buckets + [[]];
    }

    /** One iteration of `build_rule_index`. */
    method AddRule(i: nat)
      requires Indexed(i) && i < |filters|
      modifies this
      ensures Indexed(i + 1)
    {
      var first := FirstToken(filters[i]);
      var wild := IsWildcardToken(first);
      if |first| == 0 || wild {
        BucketedGlobal(filters, i, keys, buckets);
        global := global + [i];
        return;
      }
      var b := Bucket(first, i);
      BucketedAppend(filters, i, keys, buckets, b);
      buckets := buckets[b := buckets[b] + [i]];
    }

    /** `rule_refs_for_subject`: the bucket of the subject's first token, empty when there is none. */
    method Refs(subject: Slice) returns (refs: seq<nat>)
      requires Valid()
      ensures refs == Select(|filters|, BucketRule(filters, First(subject)))
    {
      var first := FirstToken(subject);
      if |first| == 0 {
        SelectSkip(0, |filters|, BucketRule(filters, first));
        return [];
      }
      for b := 0 to |keys|
        invariant first !in keys[..b]
      {
        if keys[b] == first {
          return buckets[b];
        }
      }
      SelectSkip(0, |filters|, BucketRule(filters, first));
      refs := [];
    }

    /**
     `eval_publish_slices`. `evaluated` are the rules whose body is run: exactly the rules that match,
     each once, in source order.
     */
    method Publish(subject: Slice) returns (evaluated: seq<nat>)
      requires Valid()
      ensures evaluated == Select(|filters|, MatchingRule(filters, subject))
    {
      var bucket := Refs(subject);
      ListsCover(filters, subject);
      evaluated := Merge(filters, subject, bucket, global,
        BucketRule(filters, First(subject)), GlobalRule(filters), MatchingRule(filters, subject));
    }
  }

  /** The test at the start of `eval_rule_for_publish`. */
  method Test(filters: seq<Slice>, rule: nat, subject: Slice, ghost pm: nat -> bool) returns (m: bool)
    requires rule < |filters|
    requires forall i {:trigger Matches(filters[i], subject)} :: 0 <= i < |filters| ==> (pm(i) <==> Matches(filters[i], subject))
    ensures m == pm(rule)
  {
    m := SubjectMatches(filters[rule], subject);
  }

  /** The loop of `eval_publish_slices`, which merges two lists and tests each rule as `eval_rule_for_publish` does. */
  method Merge(filters: seq<Slice>, subject: Slice, bucket: seq<nat>, global: seq<nat>,
               ghost pb: nat -> bool, ghost pg: nat -> bool, ghost pm: nat -> bool)
    returns (evaluated: seq<nat>)
    requires bucket == Select(|filters|, pb) && global == Select(|filters|, pg)
    requires forall i :: 0 <= i < |filters| ==> !(pb(i) && pg(i))
    requires forall i :: 0 <= i < |filters| ==> (pm(i) ==> pb(i) || pg(i))
    requires forall i {:trigger Matches(filters[i], subject)} :: 0 <= i < |filters| ==> (pm(i) <==> Matches(filters[i], subject))
    ensures evaluated == Select(|filters|, pm)
  {
    evaluated := [];
    var bucketPos: nat, globalPos: nat := 0, 0;
    ghost var k := 0;
    while bucketPos < |bucket| || globalPos < |global|
      invariant MergedTo(|filters|, k, bucket, bucketPos, global, globalPos, evaluated, pb, pg, pm)
      decreases |filters| - k
    {
      evaluated, bucketPos, globalPos, k := MergeNext(filters, subject, bucket, bucketPos, global, globalPos, evaluated, k, pb, pg, pm);
    }
    MergeEnd(|filters|, k, pb, pg, pm);
  }

  /** Both lists have been read, and the rules tested, up to rule `k`. */
  ghost predicate MergedTo(n: nat, k: nat, bucket: seq<nat>, bucketPos: nat, global: seq<nat>, globalPos: nat, evaluated: seq<nat>,
                           pb: nat -> bool, pg: nat -> bool, pm: nat -> bool) {
    k <= n && evaluated == Select(k, pm) && At(bucket, bucketPos, k, pb) && At(global, globalPos, k, pg)
  }

  /** The body of the loop. */
  method MergeNext(filters: seq<Slice>, subject: Slice, bucket: seq<nat>, bucketPos: nat, global: seq<nat>, globalPos: nat, evaluated: seq<nat>,
                   ghost k: nat, ghost pb: nat -> bool, ghost pg: nat -> bool, ghost pm: nat -> bool)
    returns (evaluated': seq<nat>, bucketPos': nat, globalPos': nat, ghost k': nat)
    requires MergedTo(|filters|, k, bucket, bucketPos, global, globalPos, evaluated, pb, pg, pm)
    requires bucketPos < |bucket| || globalPos < |global|
    requires bucket == Select(|filters|, pb) && global == Select(|filters|, pg)
    requires forall i :: 0 <= i < |filters| ==> !(pb(i) && pg(i))
    requires forall i :: 0 <= i < |filters| ==> (pm(i) ==> pb(i) || pg(i))
    requires forall i {:trigger Matches(filters[i], subject)} :: 0 <= i < |filters| ==> (pm(i) <==> Matches(filters[i], subject))
    ensures MergedTo(|filters|, k', bucket, bucketPos', global, globalPos', evaluated', pb, pg, pm) && k' > k
  {
    var rule;
    rule, bucketPos', globalPos' := Pick(|filters|, bucket, bucketPos, global, globalPos, k, pb, pg);
    MergeStep(|filters|, k, rule, pb, pg, pm);
    var m := Test(filters, rule, subject, pm);
    evaluated' := evaluated + if m then [rule] else [];
    k' := rule + 1;
  }

  lemma {:induction false} MergeStep(n: nat, k: nat, rule: nat, pb: nat -> bool, pg: nat -> bool, pm: nat -> bool)
    requires k <= rule < n && forall j :: k <= j < rule ==> !pb(j) && !pg(j)
    requires forall i :: 0 <= i < n ==> (pm(i) ==> pb(i) || pg(i))
    ensures Select(rule + 1, pm) == Select(k, pm) + if pm(rule) then [rule] else []
  {
    SelectStep(k, rule, pm);
  }

  /** When both lists have been read, no rule from `k` on can match. */
  lemma {:induction false} MergeEnd(n: nat, k: nat, pb: nat -> bool, pg: nat -> bool, pm: nat -> bool)
    requires k <= n && |Select(k, pb)| >= |Select(n, pb)| && |Select(k, pg)| >= |Select(n, pg)|
    requires forall i :: 0 <= i < n ==> (pm(i) ==> pb(i) || pg(i))
    ensures Select(n, pm) == Select(k, pm)
  {
    var b, g := NextOf(k, n, pb, pg);
    SelectSkip(k, n, pm);
  }

  /** A list of the indexes that satisfy `p` has been read up to index `k`. */
  ghost predicate At(list: seq<nat>, pos: nat, k: nat, p: nat -> bool) {
    pos == |Select(k, p)| <= |list|
  }

  /** One step of the merge: the smaller of the two next entries; `n` stands for `SIZE_MAX`, above every rule. */
  method Pick(n: nat, bucket: seq<nat>, bucketPos: nat, global: seq<nat>, globalPos: nat,
              ghost k: nat, ghost pb: nat -> bool, ghost pg: nat -> bool)
    returns (rule: nat, bucketPos': nat, globalPos': nat)
    requires k <= n && At(bucket, bucketPos, k, pb) && At(global, globalPos, k, pg)
    requires bucket == Select(n, pb) && global == Select(n, pg)
    requires bucketPos < |bucket| || globalPos < |global|
    requires forall i :: 0 <= i < n ==> !(pb(i) && pg(i))
    ensures k <= rule < n && forall j :: k <= j < rule ==> !pb(j) && !pg(j)
    ensures At(bucket, bucketPos', rule + 1, pb) && At(global, globalPos', rule + 1, pg)
  {
    ghost var b, g := NextOf(k, n, pb, pg);
    var bucketIdx := if bucketPos < |bucket| then bucket[bucketPos] else n;
    var globalIdx := if globalPos < |global| then global[globalPos] else n;
    bucketPos', globalPos' := bucketPos, globalPos;
    if bucketIdx < globalIdx {
      rule := bucketIdx;
      bucketPos' := bucketPos + 1;
    } else {
      rule := globalIdx;
      globalPos' := globalPos + 1;
    }
    SelectStep(k, rule, pb);
    SelectStep(k, rule, pg);
    SelectMonotone(rule + 1, n, pb);
    SelectMonotone(rule + 1, n, pg);
  }

  /** A rule in neither list cannot match the subject. */
  lemma {:induction false} ListsCover(filters: seq<Slice>, subject: Slice)
    ensures forall i :: 0 <= i < |filters| && MatchingRule(filters, subject)(i) ==>
      BucketRule(filters, First(subject))(i) || GlobalRule(filters)(i)
    ensures forall i :: 0 <= i < |filters| ==> !(BucketRule(filters, First(subject))(i) && GlobalRule(filters)(i))
  {
    forall i | 0 <= i < |filters| && MatchingRule(filters, subject)(i)
      ensures BucketRule(filters, First(subject))(i) || GlobalRule(filters)(i)
    {
      if !IsGlobal(filters[i]) {
        FirstTokenDecides(filters[i], subject);
      }
    }
  }
}
