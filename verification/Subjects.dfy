/**
 Subjects and filters: the cursor loops of `src/router.c` and `src/proto.c`, proved against a
 definition on token sequences.
 */
module Subjects {
  import opened Bytes

  // ----- the reference: a subject is its '.'-separated tokens -----

  /** The maximal dot-free prefix length of `s`. */
  function TokenEnd(s: Slice): (n: nat)
    ensures n <= |s|
    ensures DOT !in s[..n]
    ensures n < |s| ==> s[n] == DOT
  {
    if s == [] || s[0] == DOT then 0 else
      var n := 1 + TokenEnd(s[1..]);
      assert s[..n] == [s[0]] + s[1..][..n - 1];
      n
  }

  /** Everything between dots; never empty, since the empty string is one empty token. */
  function Split(s: Slice): (ts: seq<Slice>)
    ensures |ts| >= 1
    ensures forall i :: 0 <= i < |ts| ==> DOT !in ts[i]
    decreases |s|
  {
    var n := TokenEnd(s);
    if n == |s| then [s] else [s[..n]] + Split(s[n + 1..])
  }

  function Join(ts: seq<Slice>): Slice
    requires |ts| >= 1
  {
    if |ts| == 1 then ts[0] else ts[0] + [DOT] + Join(ts[1..])
  }

  lemma {:induction false} JoinSplit(s: Slice)
    ensures Join(Split(s)) == s
    decreases |s|
  {
    var n := TokenEnd(s);
    SplitOnce(s, n);
    if n < |s| {
      JoinSplit(s[n + 1..]);
      Rejoined(s, n);
    }
  }

  lemma {:induction false} Rejoined(s: Slice, n: nat)
    requires n < |s| && s[n] == DOT
    ensures s == s[..n] + [DOT] + s[n + 1..]
  {
  }

  const STAR_TOKEN: Slice := [STAR]
  const TAIL_TOKEN: Slice := [GT]

  /**
   What `subject_matches` decides, on tokens. The filter is read up to its first empty token,
   which then has to coincide with the very end of the subject; `>` has to be the filter's last
   token and accepts whatever is left, including nothing.
   */
  predicate MatchTokens(ft: seq<Slice>, st: seq<Slice>) {
    if ft == [] || ft[0] == [] then st == []
    else if ft[0] == TAIL_TOKEN then |ft| == 1
    else st != [] && st[0] != [] && (ft[0] == STAR_TOKEN || ft[0] == st[0]) && MatchTokens(ft[1..], st[1..])
  }

  predicate Matches(filter: Slice, subject: Slice) {
    MatchTokens(Split(filter), Split(subject))
  }

  predicate NonEmptyTokens(ts: seq<Slice>) {
    forall i :: 0 <= i < |ts| ==> ts[i] != []
  }

  /** `f` and `s` agree at every position where `f` is not a star. */
  predicate Agree(f: seq<Slice>, s: seq<Slice>) {
    |f| == |s| && forall i :: 0 <= i < |f| ==> f[i] == STAR_TOKEN || f[i] == s[i]
  }

  /** Where `>` occurs in a well-formed filter: nowhere, or only last. */
  predicate TailLast(ft: seq<Slice>) {
    forall i :: 0 <= i < |ft| - 1 ==> ft[i] != TAIL_TOKEN
  }

  /** The pattern a well-formed filter stands for, said without recursion. */
  predicate Denotes(ft: seq<Slice>, st: seq<Slice>) {
    if ft != [] && ft[|ft| - 1] == TAIL_TOKEN
    then |ft| - 1 <= |st| && Agree(ft[..|ft| - 1], st[..|ft| - 1])
    else Agree(ft, st)
  }

  lemma {:induction false} MatchTokensDenotes(ft: seq<Slice>, st: seq<Slice>)
    requires NonEmptyTokens(ft) && NonEmptyTokens(st) && TailLast(ft)
    ensures MatchTokens(ft, st) <==> Denotes(ft, st)
    decreases |ft|
  {
    if ft == [] || ft[0] == TAIL_TOKEN {
    } else if st == [] {
    } else {
      MatchTokensDenotes(ft[1..], st[1..]);
      var n := |ft| - 1;
      if ft[n] == TAIL_TOKEN {
        assert n >= 1 && ft[1..][n - 1] == TAIL_TOKEN;
        assert ft[1..][..n - 1] == ft[..n][1..];
        if n <= |st| {
          assert st[1..][..n - 1] == st[..n][1..];
          AgreeCons(ft[..n], st[..n]);
        }
      } else {
        AgreeCons(ft, st);
      }
    }
  }

  lemma {:induction false} AgreeCons(f: seq<Slice>, s: seq<Slice>)
    requires f != [] && s != []
    ensures Agree(f, s) <==> (f[0] == STAR_TOKEN || f[0] == s[0]) && Agree(f[1..], s[1..])
  {
    if Agree(f[1..], s[1..]) && (f[0] == STAR_TOKEN || f[0] == s[0]) {
      forall i | 0 <= i < |f|
        ensures f[i] == STAR_TOKEN || f[i] == s[i]
      {
        if i > 0 { assert f[i] == f[1..][i - 1] && s[i] == s[1..][i - 1]; }
      }
    }
  }

  // ----- validity, as src/proto.c checks it -----

  /** No control byte, space or DEL. */
  predicate Printable(s: Slice) {
    forall i :: 0 <= i < |s| ==> s[i] > SPACE && s[i] != 0x7f
  }

  predicate TokenValid(s: Slice) {
    s != [] && Printable(s)
  }

  predicate WildFree(s: Slice) {
    forall i :: 0 <= i < |s| ==> s[i] != STAR && s[i] != GT
  }

  predicate ValidToken(tok: Slice, wildcards: bool, last: bool) {
    tok != [] && (WildFree(tok) || (wildcards && (tok == STAR_TOKEN || (tok == TAIL_TOKEN && last))))
  }

  /** Every token acceptable; only the last one may be `>`. */
  predicate TokensOk(ts: seq<Slice>, wildcards: bool) {
    forall i :: 0 <= i < |ts| ==> ValidToken(ts[i], wildcards, i == |ts| - 1)
  }

  predicate SubjectValid(s: Slice, wildcards: bool) {
    Printable(s) && TokensOk(Split(s), wildcards)
  }

  lemma {:induction false} ValidShape(s: Slice, wildcards: bool)
    requires SubjectValid(s, wildcards)
    ensures s != [] && NonEmptyTokens(Split(s)) && TailLast(Split(s))
    ensures !wildcards ==> forall i :: 0 <= i < |Split(s)| ==> WildFree(Split(s)[i])
  {
    var ts := Split(s);
    assert ValidToken(ts[0], wildcards, 0 == |ts| - 1);
    forall i | 0 <= i < |ts| - 1
      ensures ts[i] != TAIL_TOKEN
    {
      assert ValidToken(ts[i], wildcards, i == |ts| - 1);
      assert TAIL_TOKEN[0] == GT;
    }
  }

  /** `MatchesMeans`: on what the router stores and publishes, the code's answer is the glob's. */
  lemma {:induction false} MatchesMeans(filter: Slice, subject: Slice)
    requires SubjectValid(filter, true) && SubjectValid(subject, false)
    ensures Matches(filter, subject) <==> Denotes(Split(filter), Split(subject))
  {
    ValidShape(filter, true);
    ValidShape(subject, false);
    MatchTokensDenotes(Split(filter), Split(subject));
  }

  /** The rule of the documentation (`docs/patchbay.md`): `>` stands for one or more tokens. */
  predicate Documented(filter: Slice, subject: Slice) {
    var ft, st := Split(filter), Split(subject);
    if ft[|ft| - 1] == TAIL_TOKEN then |ft| <= |st| && Agree(ft[..|ft| - 1], st[..|ft| - 1]) else Agree(ft, st)
  }

  /** The code differs from it exactly on subjects that are the filter without its final `>`. */
  lemma {:induction false} TailMayBeEmpty(filter: Slice, subject: Slice)
    requires SubjectValid(filter, true) && SubjectValid(subject, false)
    ensures Documented(filter, subject) ==> Matches(filter, subject)
    ensures var ft, st := Split(filter), Split(subject);
      Matches(filter, subject) && !Documented(filter, subject) <==>
      ft[|ft| - 1] == TAIL_TOKEN && Agree(ft[..|ft| - 1], st)
  {
    MatchesMeans(filter, subject);
    var ft, st := Split(filter), Split(subject);
    if |st| == |ft| - 1 {
      assert st[..|ft| - 1] == st;
    }
  }

  /** `foo.>` takes `foo`. */
  lemma {:induction false} TailExample()
    ensures var foo: Slice := [102, 111, 111];
      Matches(foo + [DOT, GT], foo) && !Documented(foo + [DOT, GT], foo)
  {
    var foo: Slice := [102, 111, 111];
    var filter := foo + [DOT, GT];
    var n := TokenEnd(filter);
    assert filter[3] == DOT;
    assert n == 3 && TokenEnd(foo) == 3;
    assert filter[..3] == foo && filter[4..] == [GT];
    assert TokenEnd([GT]) == 1 by { assert [GT][1..] == []; }
    assert Split([GT]) == [TAIL_TOKEN];
    assert Split(filter) == [foo, TAIL_TOKEN] && Split(foo) == [foo];
    assert [foo, TAIL_TOKEN][1..] == [TAIL_TOKEN] && [foo][1..] == [];
    assert MatchTokens([TAIL_TOKEN], []);
  }

  // ----- the cursor loops -----

  /** The scan shared by `next_subject_token` and `mb_proto_subject_valid`. */
  method ScanToken(s: Slice, start: nat) returns (end: nat)
    requires start <= |s|
    ensures end == start + TokenEnd(s[start..])
    ensures s[start..end] == Split(s[start..])[0]
    ensures end == |s| <==> |Split(s[start..])| == 1
    ensures end < |s| ==> Split(s[end + 1..]) == Split(s[start..])[1..]
  {
    end := FindDot(s, start);
    SplitAt(s, start, end);
  }

  method FindDot(s: Slice, start: nat) returns (end: nat)
    requires start <= |s|
    ensures start <= end <= |s| && (forall j :: start <= j < end ==> s[j] != DOT) && (end < |s| ==> s[end] == DOT)
  {
    end := start;
    while end < |s| && s[end] != DOT
      invariant start <= end <= |s|
      invariant forall j :: start <= j < end ==> s[j] != DOT
    {
      end := end + 1;
    }
  }

  /** Where a token ends is where the first dot is. */
  lemma {:induction false} TokenEndIs(s: Slice, n: nat)
    requires n <= |s| && (forall j :: 0 <= j < n ==> s[j] != DOT) && (n < |s| ==> s[n] == DOT)
    ensures TokenEnd(s) == n
  {
    var t := TokenEnd(s);
    forall j | 0 <= j < t
      ensures s[j] != DOT
    {
      assert s[..t][j] == s[j];
    }
  }

  lemma {:induction false} SplitAt(s: Slice, start: nat, end: nat)
    requires start <= end <= |s| && (forall j :: start <= j < end ==> s[j] != DOT) && (end < |s| ==> s[end] == DOT)
    ensures end == start + TokenEnd(s[start..]) && s[start..end] == Split(s[start..])[0]
    ensures end == |s| <==> |Split(s[start..])| == 1
    ensures end < |s| ==> Split(s[end + 1..]) == Split(s[start..])[1..]
  {
    var rest, n := s[start..], end - start;
    TokenEndIs(rest, n);
    assert rest[..n] == s[start..end];
    SplitOnce(rest, n);
    if end < |s| {
      assert rest[n + 1..] == s[end + 1..];
    }
  }

  lemma {:induction false} SplitOnce(s: Slice, n: nat)
    requires n == TokenEnd(s)
    ensures s[..n] == Split(s)[0]
    ensures if n == |s| then Split(s) == [s] else Split(s)[1..] == Split(s[n + 1..])
  {
    if n == |s| {
      assert s[..n] == s;
    }
  }

  /** `next_subject_token`. */
  method NextSubjectToken(s: Slice, pos: nat) returns (ok: bool, next: nat, tok: Slice)
    requires pos <= |s| + 1
    ensures ok <==> pos <= |s| && Split(s[pos..])[0] != []
    ensures !ok ==> next == pos
    ensures ok ==> pos < next <= |s| + 1 && tok == Split(s[pos..])[0]
    ensures ok ==> Rest(s, next) == Split(s[pos..])[1..]
  {
    if pos > |s| {
      return false, pos, [];
    }
    next := ScanToken(s, pos);
    if next == pos {
      return false, pos, [];
    }
    ok, tok := true, s[pos..next];
    next := if next < |s| then next + 1 else |s| + 1;
  }

  /** The tokens the cursor has left. */
  function Rest(s: Slice, pos: nat): seq<Slice>
    requires pos <= |s| + 1
  {
    if pos > |s| then [] else Split(s[pos..])
  }

  /** `subject_matches` (`src/router.c`). */
  method SubjectMatches(filter: Slice, subject: Slice) returns (m: bool)
    ensures m == Matches(filter, subject)
  {
    var fp, sp := 0, 0;
    assert filter[0..] == filter && subject[0..] == subject;
    while true
      invariant 0 <= fp <= |filter| + 1 && 0 <= sp <= |subject| + 1
      invariant Matches(filter, subject) == MatchTokens(Rest(filter, fp), Rest(subject, sp))
      decreases |filter| + 1 - fp
    {
      ghost var ft, st := Rest(filter, fp), Rest(subject, sp);
      var okf, fp', ftok := NextSubjectToken(filter, fp);
      if !okf {
        return sp > |subject|;
      }
      fp := fp';
      if |ftok| == 1 && ftok[0] == GT {
        assert ftok == TAIL_TOKEN;
        return fp > |filter|;
      }
      assert ft[0] != TAIL_TOKEN;
      var oks, sp', stok := NextSubjectToken(subject, sp);
      if !oks {
        return false;
      }
      sp := sp';
      if !(|ftok| == 1 && ftok[0] == STAR) && ftok != stok {
        return false;
      }
      assert |ftok| == 1 && ftok[0] == STAR ==> ftok == STAR_TOKEN;
    }
    assert false;
    m := false;
  }

  /** `first_token` (`src/router.c`), and `first_subject_token` (`src/patchbay/pb_program.c`): empty when there is none. */
  method FirstToken(s: Slice) returns (tok: Slice)
    ensures tok == First(s)
  {
    var ok, _, t := NextSubjectToken(s, 0);
    assert s[0..] == s;
    tok := if ok then t else [];
  }

  function First(s: Slice): (t: Slice)
    ensures DOT !in t
  {
    Split(s)[0]
  }

  predicate WildcardToken(tok: Slice) {
    tok == STAR_TOKEN || tok == TAIL_TOKEN
  }

  method IsWildcardToken(tok: Slice) returns (w: bool)
    ensures w == WildcardToken(tok)
  {
    w := |tok| == 1 && (tok[0] == STAR || tok[0] == GT);
    if w && tok[0] == STAR { assert tok == STAR_TOKEN; }
    if w && tok[0] == GT { assert tok == TAIL_TOKEN; }
  }

  /** `is_literal_filter`: no wildcard byte anywhere. */
  method IsLiteralFilter(filter: Slice) returns (literal: bool)
    ensures literal == WildFree(filter)
  {
    for i := 0 to |filter|
      invariant WildFree(filter[..i])
    {
      if filter[i] == STAR || filter[i] == GT {
        return false;
      }
      assert filter[..i + 1] == filter[..i] + [filter[i]];
    }
    assert filter[..|filter|] == filter;
    literal := true;
  }

  /** `mb_proto_token_valid`. */
  method CheckTokenValid(s: Slice) returns (v: bool)
    ensures v == TokenValid(s)
  {
    if |s| == 0 {
      return false;
    }
    for i := 0 to |s|
      invariant forall j :: 0 <= j < i ==> s[j] > SPACE && s[j] != 0x7f
    {
      if s[i] <= SPACE || s[i] == 0x7f {
        return false;
      }
    }
    v := true;
  }

  /** The body of the loop of `mb_proto_subject_valid`, for one token. */
  method CheckToken(tok: Slice, wildcards: bool, last: bool) returns (v: bool)
    ensures v == ValidToken(tok, wildcards, last)
  {
    if |tok| == 0 {
      return false;
    }
    var star := |tok| == 1 && tok[0] == STAR;
    var tail := |tok| == 1 && tok[0] == GT;
    assert star <==> tok == STAR_TOKEN;
    assert tail <==> tok == TAIL_TOKEN;
    if star || tail {
      assert !WildFree(tok);
      return wildcards && (!tail || last);
    }
    v := IsLiteralFilter(tok);
  }

  /** One turn of the loop of `mb_proto_subject_valid`: what the token at `start` decides. */
  method CheckAt(s: Slice, start: nat, wildcards: bool) returns (ok: bool, end: nat)
    requires start <= |s|
    ensures start <= end <= |s|
    ensures !ok ==> !TokensOk(Split(s[start..]), wildcards)
    ensures ok && end == |s| ==> TokensOk(Split(s[start..]), wildcards)
    ensures ok && end < |s| ==> TokensOk(Split(s[start..]), wildcards) == TokensOk(Split(s[end + 1..]), wildcards)
  {
    end := ScanToken(s, start);
    ok := CheckToken(s[start..end], wildcards, end == |s|);
    TokensOkFirst(Split(s[start..]), wildcards, ok);
  }

  /** `mb_proto_subject_valid`. */
  method CheckSubjectValid(s: Slice, wildcards: bool) returns (v: bool)
    ensures v == SubjectValid(s, wildcards)
  {
    var printable := CheckTokenValid(s);
    if !printable {
      assert s == [] ==> !ValidToken(Split(s)[0], wildcards, true);
      return false;
    }
    var start := 0;
    assert s[0..] == s;
    while start <= |s|
      invariant 0 <= start <= |s|
      invariant SubjectValid(s, wildcards) == TokensOk(Split(s[start..]), wildcards)
      decreases |s| - start
    {
      var ok, end := CheckAt(s, start, wildcards);
      if !ok {
        return false;
      }
      if end == |s| {
        return true;
      }
      start := end + 1;
    }
    assert false;
    v := false;
  }

  /** What checking the first token decides. */
  lemma {:induction false} TokensOkFirst(ts: seq<Slice>, wildcards: bool, ok: bool)
    requires ts != [] && ok == ValidToken(ts[0], wildcards, |ts| == 1)
    ensures !ok ==> !TokensOk(ts, wildcards)
    ensures ok && |ts| == 1 ==> TokensOk(ts, wildcards)
    ensures ok && |ts| > 1 ==> TokensOk(ts, wildcards) == TokensOk(ts[1..], wildcards)
  {
    assert ok == ValidToken(ts[0], wildcards, 0 == |ts| - 1);
    if |ts| > 1 {
      TokensOkCons(ts, wildcards);
    }
  }

  lemma {:induction false} TokensOkCons(ts: seq<Slice>, wildcards: bool)
    requires |ts| > 1
    ensures TokensOk(ts, wildcards) <==> ValidToken(ts[0], wildcards, false) && TokensOk(ts[1..], wildcards)
  {
    if ValidToken(ts[0], wildcards, false) && TokensOk(ts[1..], wildcards) {
      forall i | 0 <= i < |ts|
        ensures ValidToken(ts[i], wildcards, i == |ts| - 1)
      {
        if i > 0 { assert ts[i] == ts[1..][i - 1]; }
      }
    }
    if TokensOk(ts, wildcards) {
      forall i | 0 <= i < |ts[1..]|
        ensures ValidToken(ts[1..][i], wildcards, i == |ts[1..]| - 1)
      {
        assert ts[1..][i] == ts[i + 1];
      }
    }
  }

  // ----- what the three-way index of the router and the rule index rely on -----

  /** A filter whose first token is a literal only matches subjects that start with that token. */
  lemma {:induction false} FirstTokenDecides(filter: Slice, subject: Slice)
    requires Matches(filter, subject)
    requires First(filter) != [] && !WildcardToken(First(filter))
    ensures First(subject) == First(filter)
  {
  }

  lemma {:induction false} WildFreeTokens(s: Slice)
    requires WildFree(s)
    ensures forall i :: 0 <= i < |Split(s)| ==> WildFree(Split(s)[i])
    decreases |s|
  {
    var n := TokenEnd(s);
    if n < |s| {
      WildFreeTokens(s[n + 1..]);
      forall i | 0 <= i < |Split(s)|
        ensures WildFree(Split(s)[i])
      {
        if i > 0 { assert Split(s)[i] == Split(s[n + 1..])[i - 1]; }
      }
    }
  }

  /** A literal filter matches exactly itself, so one hash lookup finds every literal match. */
  lemma {:induction false} LiteralMatchesItself(filter: Slice, subject: Slice)
    requires SubjectValid(filter, true) && SubjectValid(subject, false)
    requires WildFree(filter)
    ensures Matches(filter, subject) <==> filter == subject
  {
    MatchesMeans(filter, subject);
    WildFreeTokens(filter);
    var ft, st := Split(filter), Split(subject);
    assert forall i :: 0 <= i < |ft| ==> ft[i] != STAR_TOKEN && ft[i] != TAIL_TOKEN by {
      forall i | 0 <= i < |ft| ensures ft[i] != STAR_TOKEN && ft[i] != TAIL_TOKEN {
        assert WildFree(ft[i]) && STAR_TOKEN[0] == STAR && TAIL_TOKEN[0] == GT;
      }
    }
    if Denotes(ft, st) {
      assert ft == st;
      JoinSplit(filter);
      JoinSplit(subject);
    }
  }

  /** A valid filter that is not literal starts with a wildcard or with a nonempty literal token. */
  lemma {:induction false} NonLiteralFirst(filter: Slice)
    requires SubjectValid(filter, true)
    ensures First(filter) != []
  {
    ValidShape(filter, true);
  }
}
