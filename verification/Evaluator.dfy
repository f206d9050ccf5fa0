/**
 The patchbay evaluator (`src/patchbay/pb_eval.c`) with reentrant publishing
 (`publish_cb`, `eval_publish_slices` in `src/patchbay/pb_program.c`).

 Evaluation is a function from a world to a world; a world is the trace of effects so far. Forms
 that are not special are described by an environment: given the trace and their evaluated
 arguments they fail, or return a scalar or one of their arguments, after publishing some messages.
 */
module Evaluator {
  import opened Bytes
  import opened Subjects
  import Dispatch

  const MAX_REENTRY_DEPTH: nat := 8

  // ----- terms and values -----

  datatype Value =
    | Nil
    | Bool(b: bool)
    | Num(n: real)
    | Str(text: Slice)
    | Keyword(text: Slice)
    | Symbol(text: Slice)
    | List(items: seq<Value>)
    | Vector(items: seq<Value>)

  function Size(v: Value): (n: nat)
    ensures n >= 1
  {
    match v
    case List(items) => 1 + SizeAll(items)
    case Vector(items) => 1 + SizeAll(items)
    case _ => 1
  }

  function SizeAll(items: seq<Value>): nat {
    if items == [] then 0 else Size(items[0]) + SizeAll(items[1..])
  }

  /** The largest of the sizes, at least 1: a bound on what a form with these arguments returns. */
  function MaxSize(items: seq<Value>): (n: nat)
    ensures n >= 1
  {
    if items == [] then 1
    else var m := MaxSize(items[1..]); if Size(items[0]) > m then Size(items[0]) else m
  }

  /** Free of lists and symbols: evaluating it again changes nothing. */
  predicate IsValue(v: Value) {
    match v
    case Symbol(_) => false
    case List(_) => false
    case Vector(items) => forall i :: 0 <= i < |items| ==> IsValue(items[i])
    case _ => true
  }

  predicate AreValues(vs: seq<Value>) {
    forall i :: 0 <= i < |vs| ==> IsValue(vs[i])
  }

  function Truthy(v: Value): bool {
    v != Nil && v != Bool(false)
  }

  function HeadText(v: Value): Slice {
    if v.Symbol? then v.text else []
  }

  lemma {:induction false} SizeAt(items: seq<Value>, i: nat)
    requires i < |items|
    ensures Size(items[i]) <= SizeAll(items) && Size(items[i]) <= MaxSize(items)
  {
    if i > 0 { SizeAt(items[1..], i - 1); }
  }

  lemma {:induction false} SizeAppend(a: seq<Value>, b: seq<Value>)
    ensures SizeAll(a + b) == SizeAll(a) + SizeAll(b)
    ensures MaxSize(a + b) == if MaxSize(a) > MaxSize(b) then MaxSize(a) else MaxSize(b)
  {
    if a == [] {
      assert a + b == b;
    } else {
      assert (a + b)[1..] == a[1..] + b;
      SizeAppend(a[1..], b);
    }
  }

  lemma {:induction false} MaxBelowSum(items: seq<Value>)
    ensures items != [] ==> MaxSize(items) <= SizeAll(items)
    ensures items == [] ==> MaxSize(items) == 1
  {
    if items != [] { MaxBelowSum(items[1..]); }
  }

  lemma {:induction false} ListBound(items: seq<Value>)
    ensures (if items == [] then 1 else MaxSize(items[1..])) <= Size(List(items))
  {
    if items != [] { MaxBelowSum(items[1..]); }
  }

  lemma {:induction false} SizeAllBounded(vs: seq<Value>, items: seq<Value>)
    requires |vs| == |items| && forall i :: 0 <= i < |vs| ==> Size(vs[i]) <= Size(items[i])
    ensures SizeAll(vs) <= SizeAll(items) && MaxSize(vs) <= MaxSize(items)
  {
    if vs != [] {
      assert forall i :: 0 <= i < |vs[1..]| ==> vs[1..][i] == vs[i + 1] && items[1..][i] == items[i + 1];
      SizeAllBounded(vs[1..], items[1..]);
    }
  }

  // ----- environment and effects -----

  datatype Error = UnknownSymbol | TypeError | ArityError | InvalidSubject | PublishFailed

  datatype Result = Ok(value: Value) | Err(error: Error)

  datatype Scalar = SNil | SBool(b: bool) | SNum(n: real) | SStr(text: Slice)

  function OfScalar(s: Scalar): (v: Value)
    ensures IsValue(v) && Size(v) == 1
  {
    match s
    case SNil => Nil
    case SBool(b) => Bool(b)
    case SNum(n) => Num(n)
    case SStr(t) => Str(t)
  }

  /** `find_form`: the special forms, a plain form by number, or no form. */
  datatype Form = Do | If | When | And | Or | Thread | Transition | OnSilence | Dropout | Plain(id: nat) | NoForm

  datatype Pub = Pub(subject: Slice, payload: Slice)

  /** `Noted` and `HeardFrom` are what transition and dropout put into their slots, which a rule has one of per subject. */
  datatype Effect =
    | Published(depth: nat, rule: nat, pub: Pub)
    | Entered(depth: nat, rule: nat)
    | Noted(depth: nat, rule: nat, subject: Slice, test: bool)
    | HeardFrom(depth: nat, rule: nat, subject: Slice)

  type World = seq<Effect>

  /** The bindings of one evaluation: which rule, at which reentry depth, on which message. */
  datatype Ctx = Ctx(rule: nat, depth: nat, reentrant: bool, subject: Slice, payload: Slice)

  datatype PlainResult = Fails(error: Error) | Returns(s: Scalar) | ReturnsArg(i: nat)

  datatype Outcome = Outcome(result: PlainResult, pubs: seq<Pub>)

  datatype Rule = Rule(filter: Slice, reentrant: bool, body: Value)

  datatype Env = Env(
    rules: seq<Rule>,
    find: Slice -> Form,
    symbol: (Ctx, Slice) -> Option<Scalar>,
    plain: (World, Ctx, nat, seq<Value>) -> Outcome,
    routes: (World, Pub) -> bool,
    millis: Value -> bool,                      // a whole number of milliseconds, at least one
    start: (nat, Slice) -> Option<bool>,        // the transition slots before the trace
    lost: (World, Ctx) -> bool)                 // whether the stream of a dropout is lost

  datatype Out = Out(r: Result, w: World)

  datatype Args = Args(r: Option<Error>, vs: seq<Value>, w: World)

  /** Effects are only added, at this depth or below the cap. */
  predicate Grows(w: World, w': World, depth: nat) {
    |w| <= |w'| && w'[..|w|] == w && forall i :: |w| <= i < |w'| ==> depth <= w'[i].depth <= MAX_REENTRY_DEPTH
  }

  lemma {:induction false} GrowsTrans(w: World, w1: World, w2: World, depth: nat, depth2: nat)
    requires Grows(w, w1, depth) && Grows(w1, w2, depth2) && depth <= depth2
    ensures Grows(w, w2, depth)
  {
    assert w2[..|w|] == w2[..|w1|][..|w|];
    forall i | |w| <= i < |w2| ensures depth <= w2[i].depth <= MAX_REENTRY_DEPTH {
      if i < |w1| { assert w2[i] == w2[..|w1|][i]; }
    }
  }

  /** Effects are only added, and rules are only entered deeper than this. */
  predicate Inside(w: World, w': World, depth: nat) {
    Grows(w, w', depth) && forall i :: |w| <= i < |w'| && w'[i].Entered? ==> depth < w'[i].depth
  }

  lemma {:induction false} InsideTrans(w: World, w1: World, w2: World, depth: nat)
    requires Inside(w, w1, depth) && Inside(w1, w2, depth)
    ensures Inside(w, w2, depth)
  {
    GrowsTrans(w, w1, w2, depth, depth);
    forall i | |w| <= i < |w2| && w2[i].Entered?
      ensures depth < w2[i].depth
    {
      if i < |w1| { assert w2[i] == w2[..|w1|][i]; }
    }
  }

  /** The latest test of a rule's transition on this subject. */
  function Noticed(w: World, rule: nat, subject: Slice): Option<bool> {
    if w == [] then None
    else
      var e := w[|w| - 1];
      if e.Noted? && e.rule == rule && e.subject == subject then Some(e.test) else Noticed(w[..|w| - 1], rule, subject)
  }

  const MS: Slice := [109, 115]
  const LOST: Slice := [108, 111, 115, 116]
  const FOUND: Slice := [102, 111, 117, 110, 100]

  /** The result of a term or form: a value no larger than `bound`, and a longer trace. */
  predicate Good(o: Out, w: World, depth: nat, bound: nat) {
    Inside(w, o.w, depth) && (o.r.Ok? ==> IsValue(o.r.value) && Size(o.r.value) <= bound)
  }

  // ----- evaluation -----

  /** `pb_eval`. */
  function Eval(env: Env, ctx: Ctx, v: Value, w: World): (o: Out)
    requires ctx.depth <= MAX_REENTRY_DEPTH
    ensures Good(o, w, ctx.depth, Size(v))
    decreases 2 * (MAX_REENTRY_DEPTH - ctx.depth), Size(v), 1, 0
  {
    match v
    case Symbol(t) =>
      (match env.symbol(ctx, t)
       case None => Out(Err(UnknownSymbol), w)
       case Some(s) => Out(Ok(OfScalar(s)), w))
    case Vector(items) =>
      var a := EvalArgs(env, ctx, items, w);
      if a.r.Some? then Out(Err(a.r.value), a.w)
      else SizeAllBounded(a.vs, items); Out(Ok(Vector(a.vs)), a.w)
    case List(items) =>
      ListBound(items);
      EvalList(env, ctx, items, w)
    case _ => Out(Ok(v), w)
  }

  /** `eval_args`: left to right, stopping at the first error. */
  function EvalArgs(env: Env, ctx: Ctx, items: seq<Value>, w: World): (a: Args)
    requires ctx.depth <= MAX_REENTRY_DEPTH
    ensures Inside(w, a.w, ctx.depth)
    ensures a.r.None? ==> |a.vs| == |items| && AreValues(a.vs) && forall i :: 0 <= i < |items| ==> Size(a.vs[i]) <= Size(items[i])
    decreases 2 * (MAX_REENTRY_DEPTH - ctx.depth), SizeAll(items), 2, |items|
  {
    if items == [] then Args(None, [], w)
    else
      var o := Eval(env, ctx, items[0], w);
      match o.r
      case Err(e) => Args(Some(e), [], o.w)
      case Ok(v) =>
        var a := EvalArgs(env, ctx, items[1..], o.w);
        InsideTrans(w, o.w, a.w, ctx.depth);
        assert a.r.None? ==> forall i :: 1 <= i < |items| ==> items[i] == items[1..][i - 1];
        Args(a.r, [v] + a.vs, a.w)
  }

  /** `eval_list`. The reader only builds lists that start with a symbol. */
  function EvalList(env: Env, ctx: Ctx, items: seq<Value>, w: World): (o: Out)
    requires ctx.depth <= MAX_REENTRY_DEPTH
    ensures Good(o, w, ctx.depth, if items == [] then 1 else MaxSize(items[1..]))
    decreases 2 * (MAX_REENTRY_DEPTH - ctx.depth), 1 + SizeAll(items), 0, 0
  {
    if items == [] then Out(Err(UnknownSymbol), w)
    else
      var args := items[1..];
      match env.find(HeadText(items[0]))
      case NoForm => Out(Err(UnknownSymbol), w)
      case Do => EvalDo(env, ctx, args, Nil, w)
      case If => EvalIf(env, ctx, args, w)
      case When => EvalWhen(env, ctx, args, w)
      case And => EvalAnd(env, ctx, args, Bool(true), w)
      case Or => EvalOr(env, ctx, args, w)
      case Thread => EvalThread(env, ctx, args, w)
      case Transition => EvalTransition(env, ctx, args, w)
      case Dropout => EvalDropout(env, ctx, args, w)
      case OnSilence => EvalOnSilence(env, ctx, args, w)
      case Plain(id) =>
        var a := EvalArgs(env, ctx, args, w);
        if a.r.Some? then Out(Err(a.r.value), a.w)
        else
          var o := CallForm(env, ctx, id, a.vs, a.w);
          InsideTrans(w, a.w, o.w, ctx.depth);
          SizeAllBounded(a.vs, args);
          o
  }

  /** `eval_do`, with the value of the last form evaluated so far. */
  function EvalDo(env: Env, ctx: Ctx, args: seq<Value>, last: Value, w: World): (o: Out)
    requires ctx.depth <= MAX_REENTRY_DEPTH && IsValue(last)
    ensures Good(o, w, ctx.depth, if Size(last) > MaxSize(args) then Size(last) else MaxSize(args))
    decreases 2 * (MAX_REENTRY_DEPTH - ctx.depth), SizeAll(args), 2, |args|
  {
    if args == [] then Out(Ok(last), w)
    else
      var o := Eval(env, ctx, args[0], w);
      if o.r.Err? then o
      else
        var o' := EvalDo(env, ctx, args[1..], o.r.value, o.w);
        InsideTrans(w, o.w, o'.w, ctx.depth);
        o'
  }

  function EvalIf(env: Env, ctx: Ctx, args: seq<Value>, w: World): (o: Out)
    requires ctx.depth <= MAX_REENTRY_DEPTH
    ensures Good(o, w, ctx.depth, MaxSize(args))
    decreases 2 * (MAX_REENTRY_DEPTH - ctx.depth), SizeAll(args), 2, 0
  {
    if |args| != 2 && |args| != 3 then Out(Err(ArityError), w)
    else
      SizeAt(args, 0);
      var c := Eval(env, ctx, args[0], w);
      if c.r.Err? then c
      else if Truthy(c.r.value) then
        SizeAt(args, 1);
        var o := Eval(env, ctx, args[1], c.w);
        InsideTrans(w, c.w, o.w, ctx.depth);
        o
      else if |args| == 3 then
        SizeAt(args, 2);
        var o := Eval(env, ctx, args[2], c.w);
        InsideTrans(w, c.w, o.w, ctx.depth);
        o
      else Out(Ok(Nil), c.w)
  }

  function EvalWhen(env: Env, ctx: Ctx, args: seq<Value>, w: World): (o: Out)
    requires ctx.depth <= MAX_REENTRY_DEPTH
    ensures Good(o, w, ctx.depth, MaxSize(args))
    decreases 2 * (MAX_REENTRY_DEPTH - ctx.depth), SizeAll(args), 2, |args| + 1
  {
    if args == [] then Out(Err(ArityError), w)
    else
      var c := Eval(env, ctx, args[0], w);
      if c.r.Err? then c
      else if !Truthy(c.r.value) then Out(Ok(Nil), c.w)
      else
        var o := EvalDo(env, ctx, args[1..], Nil, c.w);
        InsideTrans(w, c.w, o.w, ctx.depth);
        o
  }

  function EvalAnd(env: Env, ctx: Ctx, args: seq<Value>, last: Value, w: World): (o: Out)
    requires ctx.depth <= MAX_REENTRY_DEPTH && IsValue(last)
    ensures Good(o, w, ctx.depth, if Size(last) > MaxSize(args) then Size(last) else MaxSize(args))
    decreases 2 * (MAX_REENTRY_DEPTH - ctx.depth), SizeAll(args), 2, |args|
  {
    if args == [] then Out(Ok(last), w)
    else
      var o := Eval(env, ctx, args[0], w);
      if o.r.Err? || !Truthy(o.r.value) then o
      else
        var o' := EvalAnd(env, ctx, args[1..], o.r.value, o.w);
        InsideTrans(w, o.w, o'.w, ctx.depth);
        o'
  }

  function EvalOr(env: Env, ctx: Ctx, args: seq<Value>, w: World): (o: Out)
    requires ctx.depth <= MAX_REENTRY_DEPTH
    ensures Good(o, w, ctx.depth, MaxSize(args))
    decreases 2 * (MAX_REENTRY_DEPTH - ctx.depth), SizeAll(args), 2, |args|
  {
    if args == [] then Out(Ok(Nil), w)
    else
      var o := Eval(env, ctx, args[0], w);
      if o.r.Err? || Truthy(o.r.value) then o
      else
        var o' := EvalOr(env, ctx, args[1..], o.w);
        InsideTrans(w, o.w, o'.w, ctx.depth);
        o'
  }

  /** `eval_transition`: the slot keeps the latest test; a branch is evaluated when it changes. */
  function EvalTransition(env: Env, ctx: Ctx, args: seq<Value>, w: World): (o: Out)
    requires ctx.depth <= MAX_REENTRY_DEPTH
    ensures Good(o, w, ctx.depth, MaxSize(args))
    decreases 2 * (MAX_REENTRY_DEPTH - ctx.depth), SizeAll(args), 2, 0
  {
    if |args| != 3 then Out(Err(ArityError), w)
    else
      SizeAt(args, 0);
      var c := Eval(env, ctx, args[0], w);
      if c.r.Err? then c
      else
        var test, slot := Truthy(c.r.value), Noticed(c.w, ctx.rule, ctx.subject);
        var before := if slot.Some? then slot else env.start(ctx.rule, ctx.subject);
        var w1 := c.w + [Noted(ctx.depth, ctx.rule, ctx.subject, test)];
        InsideTrans(w, c.w, w1, ctx.depth);
        if before == None || before.value == test then Out(Ok(Nil), w1)
        else
          var i := if test then 1 else 2;
          SizeAt(args, i);
          var o := Eval(env, ctx, args[i], w1);
          InsideTrans(w, w1, o.w, ctx.depth);
          o
  }

  /** `pb_eval_call_dropout`. */
  function EvalDropout(env: Env, ctx: Ctx, args: seq<Value>, w: World): (o: Out)
    requires ctx.depth <= MAX_REENTRY_DEPTH
    ensures Good(o, w, ctx.depth, MaxSize(args))
    decreases 2 * (MAX_REENTRY_DEPTH - ctx.depth), SizeAll(args), 2, 0
  {
    if |args| != 6 || args[0] != Keyword(MS) || args[2] != Keyword(LOST) || args[4] != Keyword(FOUND) then Out(Err(ArityError), w)
    else
      SizeAt(args, 1);
      var c := Eval(env, ctx, args[1], w);
      if c.r.Err? || !env.millis(c.r.value) then Out(Err(TypeError), c.w)
      else
        var w1 := c.w + [HeardFrom(ctx.depth, ctx.rule, ctx.subject)];
        InsideTrans(w, c.w, w1, ctx.depth);
        if !env.lost(c.w, ctx) then Out(Ok(Nil), w1)
        else
          SizeAt(args, 5);
          var o := Eval(env, ctx, args[5], w1);
          InsideTrans(w, w1, o.w, ctx.depth);
          o
  }

  /** `pb_eval_call_on_silence` evaluates its interval and keeps the rest for a later tick. */
  function EvalOnSilence(env: Env, ctx: Ctx, args: seq<Value>, w: World): (o: Out)
    requires ctx.depth <= MAX_REENTRY_DEPTH
    ensures Good(o, w, ctx.depth, MaxSize(args))
    decreases 2 * (MAX_REENTRY_DEPTH - ctx.depth), SizeAll(args), 2, 0
  {
    if |args| < 3 || args[0] != Keyword(MS) then Out(Err(ArityError), w)
    else
      SizeAt(args, 1);
      var c := Eval(env, ctx, args[1], w);
      if c.r.Err? || !env.millis(c.r.value) then Out(Err(TypeError), c.w) else Out(Ok(Nil), c.w)
  }

  /** `eval_thread`. */
  function EvalThread(env: Env, ctx: Ctx, args: seq<Value>, w: World): (o: Out)
    requires ctx.depth <= MAX_REENTRY_DEPTH
    ensures Good(o, w, ctx.depth, MaxSize(args))
    decreases 2 * (MAX_REENTRY_DEPTH - ctx.depth), 1 + SizeAll(args), 2, 0
  {
    if args == [] then Out(Err(ArityError), w)
    else
      SizeAt(args, 0);
      var c := Eval(env, ctx, args[0], w);
      if c.r.Err? then c
      else
        assert args[..1] == [args[0]];
        var o := ThreadRest(env, ctx, args, 1, c.r.value, c.w);
        InsideTrans(w, c.w, o.w, ctx.depth);
        o
  }

  /** The call `eval_call_with_threaded` builds: the threaded value becomes the last argument. */
  function ThreadedCall(form: Value, cur: Value): Option<seq<Value>> {
    match form
    case Symbol(_) => Some([form, cur])
    case List(items) => if items != [] && items[0].Symbol? then Some(items + [cur]) else None
    case _ => None
  }

  /** The loop of `eval_thread`, about to thread `cur` through `args[i..]`. */
  function ThreadRest(env: Env, ctx: Ctx, args: seq<Value>, i: nat, cur: Value, w: World): (o: Out)
    requires ctx.depth <= MAX_REENTRY_DEPTH && 1 <= i <= |args|
    requires IsValue(cur) && Size(cur) <= MaxSize(args[..i])
    ensures Good(o, w, ctx.depth, MaxSize(args))
    decreases 2 * (MAX_REENTRY_DEPTH - ctx.depth), 1 + SizeAll(args), 1, |args| - i
  {
    ThreadSizes(args, i, cur);
    if i == |args| || cur == Nil then Out(Ok(cur), w)
    else
      match ThreadedCall(args[i], cur)
      case None => Out(Err(TypeError), w)
      case Some(call) =>
        var o := EvalList(env, ctx, call, w);
        if o.r.Err? then o
        else
          var o' := ThreadRest(env, ctx, args, i + 1, o.r.value, o.w);
          InsideTrans(w, o.w, o'.w, ctx.depth);
          o'
  }

  lemma {:induction false} SizeOne(v: Value)
    ensures SizeAll([v]) == Size(v) && MaxSize([v]) == Size(v)
  {
    assert [v][1..] == [];
  }

  /** The call a form and a threaded value make is no larger than the two, and so are its arguments. */
  lemma {:induction false} ThreadedCallSize(form: Value, cur: Value)
    requires ThreadedCall(form, cur).Some?
    ensures var call := ThreadedCall(form, cur).value;
      call != [] && SizeAll(call) <= Size(form) + Size(cur) &&
      MaxSize(call[1..]) <= if Size(form) > Size(cur) then Size(form) else Size(cur)
  {
    SizeOne(cur);
    if form.Symbol? {
      assert [form, cur][1..] == [cur];
    } else {
      SizeAppend(form.items, [cur]);
      assert (form.items + [cur])[1..] == form.items[1..] + [cur];
      SizeAppend(form.items[1..], [cur]);
      MaxBelowSum(form.items[1..]);
    }
  }

  /** A threaded value is no larger than what came before it, so the call it goes into is smaller than the whole `->`. */
  lemma {:induction false} ThreadSizes(args: seq<Value>, i: nat, cur: Value)
    requires 1 <= i <= |args| && Size(cur) <= MaxSize(args[..i])
    ensures MaxSize(args[..i]) <= MaxSize(args)
    ensures i < |args| && ThreadedCall(args[i], cur).Some? ==>
      var call := ThreadedCall(args[i], cur).value;
      call != [] && SizeAll(call) <= SizeAll(args) && MaxSize(call[1..]) <= MaxSize(args[..i + 1])
  {
    assert args == args[..i] + args[i..];
    SizeAppend(args[..i], args[i..]);
    if i < |args| && ThreadedCall(args[i], cur).Some? {
      ThreadedCallSize(args[i], cur);
      assert args[..i + 1] == args[..i] + [args[i]];
      SizeOne(args[i]);
      SizeAppend(args[..i], [args[i]]);
      MaxBelowSum(args[..i]);
      SizeAt(args[i..], 0);
    }
  }

  /** A form that is not special: what it publishes, then what it returns. */
  function CallForm(env: Env, ctx: Ctx, id: nat, vs: seq<Value>, w: World): (o: Out)
    requires ctx.depth <= MAX_REENTRY_DEPTH && AreValues(vs)
    ensures Good(o, w, ctx.depth, MaxSize(vs))
    decreases 2 * (MAX_REENTRY_DEPTH - ctx.depth), 0, 1, 0
  {
    var out := env.plain(w, ctx, id, vs);
    var (sent, w') := PublishAll(env, ctx, out.pubs, w);
    if !sent then Out(Err(PublishFailed), w')
    else
      match out.result
      case Fails(e) => Out(Err(e), w')
      case Returns(s) => Out(Ok(OfScalar(s)), w')
      case ReturnsArg(i) =>
        if i >= |vs| then Out(Ok(Nil), w')
        else SizeAt(vs, i); Out(Ok(vs[i]), w')
  }

  /** Publish in order, stopping at the first failure. */
  function PublishAll(env: Env, ctx: Ctx, pubs: seq<Pub>, w: World): (r: (bool, World))
    requires ctx.depth <= MAX_REENTRY_DEPTH
    ensures Inside(w, r.1, ctx.depth)
    decreases 2 * (MAX_REENTRY_DEPTH - ctx.depth), 0, 0, |pubs|
  {
    if pubs == [] then (true, w)
    else if !env.routes(w, pubs[0]) then (false, w)
    else
      var w1 := w + [Published(ctx.depth, ctx.rule, pubs[0])];
      // publish_cb: a reentrant rule's publish is evaluated in turn, unless the cap is reached
      var w2 := if ctx.reentrant && ctx.depth < MAX_REENTRY_DEPTH
                then EvalRules(env, 0, pubs[0], ctx.depth + 1, w1) else w1;
      InsideTrans(w, w1, w2, ctx.depth);
      var r := PublishAll(env, ctx, pubs[1..], w2);
      InsideTrans(w, w2, r.1, ctx.depth);
      r
  }

  /** `eval_publish_slices`, over the rules from number `k` on; errors are logged and do not stop it. */
  function EvalRules(env: Env, k: nat, pub: Pub, depth: nat, w: World): (w': World)
    requires depth <= MAX_REENTRY_DEPTH && k <= |env.rules|
    ensures Grows(w, w', depth)
    decreases 2 * (MAX_REENTRY_DEPTH - depth) + 1, 0, 0, |env.rules| - k
  {
    if k == |env.rules| then w
    else if !Matches(env.rules[k].filter, pub.subject) then EvalRules(env, k + 1, pub, depth, w)
    else
      var ctx := Ctx(k, depth, env.rules[k].reentrant, pub.subject, pub.payload);
      var o := Eval(env, ctx, env.rules[k].body, w + [Entered(depth, k)]);
      GrowsTrans(w, w + [Entered(depth, k)], o.w, depth, depth);
      var w' := EvalRules(env, k + 1, pub, depth, o.w);
      GrowsTrans(w, o.w, w', depth, depth);
      w'
  }

  // ----- consequences -----

  /** A publish evaluated from outside: every effect happens at one of nine levels, 0 to 8. */
  lemma {:induction false} NineLevels(env: Env, pub: Pub)
    ensures var w := EvalRules(env, 0, pub, 0, []);
      forall i :: 0 <= i < |w| ==> 0 <= w[i].depth <= MAX_REENTRY_DEPTH
  {
  }

  /** Evaluating a value again yields it, with no effect. */
  lemma {:induction false} ValuesAreStable(env: Env, ctx: Ctx, v: Value, w: World)
    requires ctx.depth <= MAX_REENTRY_DEPTH && IsValue(v)
    ensures Eval(env, ctx, v, w) == Out(Ok(v), w)
    decreases Size(v), 1, 0
  {
    if v.Vector? {
      ArgsAreStable(env, ctx, v.items, w);
    }
  }

  lemma {:induction false} ArgsAreStable(env: Env, ctx: Ctx, vs: seq<Value>, w: World)
    requires ctx.depth <= MAX_REENTRY_DEPTH && AreValues(vs)
    ensures EvalArgs(env, ctx, vs, w) == Args(None, vs, w)
    decreases SizeAll(vs), 2, |vs|
  {
    if vs != [] {
      ValuesAreStable(env, ctx, vs[0], w);
      ArgsAreStable(env, ctx, vs[1..], w);
      assert vs == [vs[0]] + vs[1..];
    }
  }

  lemma {:induction false} ArgsAppend(env: Env, ctx: Ctx, items: seq<Value>, v: Value, w: World)
    requires ctx.depth <= MAX_REENTRY_DEPTH && IsValue(v)
    ensures var a := EvalArgs(env, ctx, items, w);
      EvalArgs(env, ctx, items + [v], w) == if a.r.Some? then Args(a.r, a.vs, a.w) else Args(None, a.vs + [v], a.w)
    decreases |items|
  {
    if items == [] {
      assert items + [v] == [v];
      ArgsAreStable(env, ctx, [v], w);
    } else {
      var o := Eval(env, ctx, items[0], w);
      assert (items + [v])[1..] == items[1..] + [v];
      if o.r.Ok? {
        ArgsAppend(env, ctx, items[1..], v, o.w);
        var a := EvalArgs(env, ctx, items[1..], o.w);
        assert [o.r.value] + (a.vs + [v]) == ([o.r.value] + a.vs) + [v];
      }
    }
  }

  /** `eval_call_with_threaded`: a form applied to a value. */
  function Apply(env: Env, ctx: Ctx, form: Value, v: Value, w: World): Out
    requires ctx.depth <= MAX_REENTRY_DEPTH
  {
    match ThreadedCall(form, v)
    case None => Out(Err(TypeError), w)
    case Some(call) => EvalList(env, ctx, call, w)
  }

  /** What the value of a chain is handed on as. */
  function HandOn(env: Env, ctx: Ctx, form: Value, o: Out): Out
    requires ctx.depth <= MAX_REENTRY_DEPTH
  {
    if o.r.Err? || o.r.value == Nil then o else Apply(env, ctx, form, o.r.value, o.w)
  }

  lemma {:induction false} ThreadLast(env: Env, ctx: Ctx, args: seq<Value>, form: Value, cur: Value, w: World)
    requires ctx.depth <= MAX_REENTRY_DEPTH && args != [] && IsValue(cur) && Size(cur) <= MaxSize(args)
    ensures (args + [form])[..|args|] == args
    ensures ThreadRest(env, ctx, args + [form], |args|, cur, w) == HandOn(env, ctx, form, Out(Ok(cur), w))
  {
    var longer, i := args + [form], |args|;
    assert longer[..i] == args;
    if cur != Nil && ThreadedCall(form, cur).Some? {
      ThreadSizes(longer, i, cur);
      var o := EvalList(env, ctx, ThreadedCall(form, cur).value, w);
      if o.r.Ok? {
        assert ThreadRest(env, ctx, longer, i + 1, o.r.value, o.w) == Out(Ok(o.r.value), o.w);
      }
    }
  }

  lemma {:induction false} ThreadRestSnoc(env: Env, ctx: Ctx, args: seq<Value>, form: Value, i: nat, cur: Value, w: World)
    requires ctx.depth <= MAX_REENTRY_DEPTH && 1 <= i <= |args|
    requires IsValue(cur) && Size(cur) <= MaxSize(args[..i])
    ensures (args + [form])[..i] == args[..i]
    ensures ThreadRest(env, ctx, args + [form], i, cur, w) == HandOn(env, ctx, form, ThreadRest(env, ctx, args, i, cur, w))
    decreases |args| - i
  {
    var longer := args + [form];
    assert longer[..i] == args[..i];
    if i == |args| {
      assert args[..i] == args;
      ThreadLast(env, ctx, args, form, cur, w);
    } else if cur != Nil && ThreadedCall(args[i], cur).Some? {
      assert longer[i] == args[i] && longer[..i + 1] == args[..i + 1];
      ThreadSizes(args, i, cur);
      ThreadSizes(longer, i, cur);
      var o := EvalList(env, ctx, ThreadedCall(args[i], cur).value, w);
      if o.r.Ok? {
        ThreadRestSnoc(env, ctx, args, form, i + 1, o.r.value, o.w);
      }
    }
  }

  /**
   A chain is read left to right: `(-> a ... form)` is `form` applied to the value of `(-> a ...)`,
   evaluated once, whatever the forms are; an error or a nil ends the chain.
   */
  lemma {:induction false} ThreadChain(env: Env, ctx: Ctx, head: Value, args: seq<Value>, form: Value, w: World)
    requires ctx.depth <= MAX_REENTRY_DEPTH && env.find(HeadText(head)) == Thread && args != []
    ensures Eval(env, ctx, List([head] + (args + [form])), w) == HandOn(env, ctx, form, Eval(env, ctx, List([head] + args), w))
  {
    var longer := args + [form];
    assert ([head] + longer)[1..] == longer && ([head] + args)[1..] == args;
    assert Eval(env, ctx, List([head] + longer), w) == EvalThread(env, ctx, longer, w);
    assert Eval(env, ctx, List([head] + args), w) == EvalThread(env, ctx, args, w);
    var first := Eval(env, ctx, args[0], w);
    assert longer[0] == args[0] && longer[..1] == [args[0]] && args[..1] == [args[0]];
    SizeOne(args[0]);
    if first.r.Ok? {
      ThreadRestSnoc(env, ctx, args, form, 1, first.r.value, first.w);
    }
  }

  /**
   Applying a form that is a call of `f`, as a symbol or a list with some arguments: the arguments
   are evaluated, and `f` is called with them and then the value.
   */
  lemma {:induction false} ApplyCalls(env: Env, ctx: Ctx, form: Value, v: Value, id: nat, w: World)
    requires ctx.depth <= MAX_REENTRY_DEPTH && IsValue(v)
    requires form.Symbol? || (form.List? && form.items != [] && form.items[0].Symbol?)
    requires var items := if form.Symbol? then [form] else form.items; env.find(HeadText(items[0])) == Plain(id)
    ensures var bs := EvalArgs(env, ctx, if form.Symbol? then [] else form.items[1..], w);
      Apply(env, ctx, form, v, w) ==
      if bs.r.Some? then Out(Err(bs.r.value), bs.w) else CallForm(env, ctx, id, bs.vs + [v], bs.w)
  {
    if form.Symbol? {
      assert [form][1..] == [] && [form] + [v] == [form, v];
      CallWithValue(env, ctx, [form], v, id, w);
    } else {
      CallWithValue(env, ctx, form.items, v, id, w);
    }
  }

  /** A call with a value as its last argument. */
  lemma {:induction false} CallWithValue(env: Env, ctx: Ctx, items: seq<Value>, v: Value, id: nat, w: World)
    requires ctx.depth <= MAX_REENTRY_DEPTH && IsValue(v)
    requires items != [] && env.find(HeadText(items[0])) == Plain(id)
    ensures var bs := EvalArgs(env, ctx, items[1..], w);
      EvalList(env, ctx, items + [v], w) ==
      if bs.r.Some? then Out(Err(bs.r.value), bs.w) else CallForm(env, ctx, id, bs.vs + [v], bs.w)
  {
    var call := items + [v];
    assert call[0] == items[0] && call[1..] == items[1..] + [v];
    ArgsAppend(env, ctx, items[1..], v, w);
  }

  // ----- the laws of the special forms -----

  /** The call of a form. */
  function CallOf(head: Value, args: seq<Value>): Value {
    List([head] + args)
  }

  /** Anything but nil and false. */
  predicate Holds(v: Value) {
    v != Nil && v != Bool(false)
  }

  /** Which function evaluates a call. */
  lemma {:induction false} CallTo(env: Env, ctx: Ctx, head: Value, args: seq<Value>, w: World)
    requires ctx.depth <= MAX_REENTRY_DEPTH
    ensures Eval(env, ctx, CallOf(head, args), w) ==
      match env.find(HeadText(head))
      case Do => EvalDo(env, ctx, args, Nil, w)
      case If => EvalIf(env, ctx, args, w)
      case When => EvalWhen(env, ctx, args, w)
      case And => EvalAnd(env, ctx, args, Bool(true), w)
      case Or => EvalOr(env, ctx, args, w)
      case Thread => EvalThread(env, ctx, args, w)
      case Transition => EvalTransition(env, ctx, args, w)
      case OnSilence => EvalOnSilence(env, ctx, args, w)
      case Dropout => EvalDropout(env, ctx, args, w)
      case NoForm => Out(Err(UnknownSymbol), w)
      case Plain(id) =>
        var a := EvalArgs(env, ctx, args, w);
        if a.r.Some? then Out(Err(a.r.value), a.w) else CallForm(env, ctx, id, a.vs, a.w)
  {
    assert ([head] + args)[0] == head && ([head] + args)[1..] == args;
  }

  /** `if` evaluates its test and then one branch; a missing branch is nil. */
  lemma {:induction false} IfLaw(env: Env, ctx: Ctx, head: Value, args: seq<Value>, w: World)
    requires ctx.depth <= MAX_REENTRY_DEPTH && env.find(HeadText(head)) == If
    ensures var o := Eval(env, ctx, CallOf(head, args), w);
      if |args| != 2 && |args| != 3 then o == Out(Err(ArityError), w)
      else
        var c := Eval(env, ctx, args[0], w);
        o == if c.r.Err? then c
             else if Holds(c.r.value) then Eval(env, ctx, args[1], c.w)
             else if |args| == 3 then Eval(env, ctx, args[2], c.w)
             else Out(Ok(Nil), c.w)
  {
    CallTo(env, ctx, head, args, w);
  }

  lemma {:induction false} DoNothing(env: Env, ctx: Ctx, head: Value, w: World)
    requires ctx.depth <= MAX_REENTRY_DEPTH && env.find(HeadText(head)) == Do
    ensures Eval(env, ctx, CallOf(head, []), w) == Out(Ok(Nil), w)
  {
    CallTo(env, ctx, head, [], w);
  }

  lemma {:induction false} DoSnoc(env: Env, ctx: Ctx, args: seq<Value>, x: Value, last: Value, w: World)
    requires ctx.depth <= MAX_REENTRY_DEPTH && IsValue(last)
    ensures EvalDo(env, ctx, args + [x], last, w) ==
      var o := EvalDo(env, ctx, args, last, w);
      if o.r.Err? then o else Eval(env, ctx, x, o.w)
    decreases |args|
  {
    if args == [] {
      assert args + [x] == [x] && [x][1..] == [];
    } else {
      var o := Eval(env, ctx, args[0], w);
      assert (args + [x])[0] == args[0] && (args + [x])[1..] == args[1..] + [x];
      if o.r.Ok? {
        DoSnoc(env, ctx, args[1..], x, o.r.value, o.w);
      }
    }
  }

  /** `do` evaluates one form after the other, up to the first error, and gives the value of the last. */
  lemma {:induction false} DoLaw(env: Env, ctx: Ctx, head: Value, args: seq<Value>, x: Value, w: World)
    requires ctx.depth <= MAX_REENTRY_DEPTH && env.find(HeadText(head)) == Do
    ensures Eval(env, ctx, CallOf(head, args + [x]), w) ==
      var o := Eval(env, ctx, CallOf(head, args), w);
      if o.r.Err? then o else Eval(env, ctx, x, o.w)
  {
    CallTo(env, ctx, head, args, w);
    CallTo(env, ctx, head, args + [x], w);
    DoSnoc(env, ctx, args, x, Nil, w);
  }

  /** `(when c a ...)` is `(if c (do a ...))`. */
  lemma {:induction false} WhenLaw(env: Env, ctx: Ctx, head: Value, ifHead: Value, doHead: Value, c: Value, args: seq<Value>, w: World)
    requires ctx.depth <= MAX_REENTRY_DEPTH
    requires env.find(HeadText(head)) == When && env.find(HeadText(ifHead)) == If && env.find(HeadText(doHead)) == Do
    ensures Eval(env, ctx, CallOf(head, [c] + args), w) == Eval(env, ctx, CallOf(ifHead, [c, CallOf(doHead, args)]), w)
    ensures Eval(env, ctx, CallOf(head, []), w) == Out(Err(ArityError), w)
  {
    CallTo(env, ctx, head, [c] + args, w);
    CallTo(env, ctx, head, [], w);
    assert ([c] + args)[0] == c && ([c] + args)[1..] == args;
    var first := Eval(env, ctx, c, w);
    CallTo(env, ctx, doHead, args, first.w);
    IfLaw(env, ctx, ifHead, [c, CallOf(doHead, args)], w);
  }

  lemma {:induction false} AndSnoc(env: Env, ctx: Ctx, args: seq<Value>, x: Value, last: Value, w: World)
    requires ctx.depth <= MAX_REENTRY_DEPTH && IsValue(last) && Holds(last)
    ensures EvalAnd(env, ctx, args + [x], last, w) ==
      var o := EvalAnd(env, ctx, args, last, w);
      if o.r.Err? || !Holds(o.r.value) then o else Eval(env, ctx, x, o.w)
    decreases |args|
  {
    if args == [] {
      assert args + [x] == [x] && [x][1..] == [];
    } else {
      var o := Eval(env, ctx, args[0], w);
      assert (args + [x])[0] == args[0] && (args + [x])[1..] == args[1..] + [x];
      if o.r.Ok? && Holds(o.r.value) {
        AndSnoc(env, ctx, args[1..], x, o.r.value, o.w);
      }
    }
  }

  /** `and` goes on while the values hold, and gives the last one it got; without arguments it is true. */
  lemma {:induction false} AndLaw(env: Env, ctx: Ctx, head: Value, args: seq<Value>, x: Value, w: World)
    requires ctx.depth <= MAX_REENTRY_DEPTH && env.find(HeadText(head)) == And
    ensures Eval(env, ctx, CallOf(head, []), w) == Out(Ok(Bool(true)), w)
    ensures Eval(env, ctx, CallOf(head, args + [x]), w) ==
      var o := Eval(env, ctx, CallOf(head, args), w);
      if o.r.Err? || !Holds(o.r.value) then o else Eval(env, ctx, x, o.w)
  {
    CallTo(env, ctx, head, [], w);
    CallTo(env, ctx, head, args, w);
    CallTo(env, ctx, head, args + [x], w);
    AndSnoc(env, ctx, args, x, Bool(true), w);
  }

  lemma {:induction false} OrSnoc(env: Env, ctx: Ctx, args: seq<Value>, x: Value, w: World)
    requires ctx.depth <= MAX_REENTRY_DEPTH
    ensures EvalOr(env, ctx, args + [x], w) ==
      var o := EvalOr(env, ctx, args, w);
      if o.r.Err? || Holds(o.r.value) then o
      else var last := Eval(env, ctx, x, o.w); if last.r.Ok? && !Holds(last.r.value) then Out(Ok(Nil), last.w) else last
    decreases |args|
  {
    if args == [] {
      assert args + [x] == [x] && [x][1..] == [];
    } else {
      var o := Eval(env, ctx, args[0], w);
      assert (args + [x])[0] == args[0] && (args + [x])[1..] == args[1..] + [x];
      if o.r.Ok? && !Holds(o.r.value) {
        OrSnoc(env, ctx, args[1..], x, o.w);
      }
    }
  }

  /** `or` goes on until a value holds, and gives that one, or nil. */
  lemma {:induction false} OrLaw(env: Env, ctx: Ctx, head: Value, args: seq<Value>, x: Value, w: World)
    requires ctx.depth <= MAX_REENTRY_DEPTH && env.find(HeadText(head)) == Or
    ensures Eval(env, ctx, CallOf(head, []), w) == Out(Ok(Nil), w)
    ensures Eval(env, ctx, CallOf(head, args + [x]), w) ==
      var o := Eval(env, ctx, CallOf(head, args), w);
      if o.r.Err? || Holds(o.r.value) then o
      else var last := Eval(env, ctx, x, o.w); if last.r.Ok? && !Holds(last.r.value) then Out(Ok(Nil), last.w) else last
  {
    CallTo(env, ctx, head, [], w);
    CallTo(env, ctx, head, args, w);
    CallTo(env, ctx, head, args + [x], w);
    OrSnoc(env, ctx, args, x, w);
  }

  /** Whether the trace has no test of the rule on this subject after `i`, and what was tested there. */
  predicate LatestTest(w: World, rule: nat, subject: Slice, i: nat, test: bool) {
    i < |w| && w[i].Noted? && w[i].rule == rule && w[i].subject == subject && w[i].test == test &&
    forall j :: i < j < |w| && w[j].Noted? && w[j].rule == rule ==> w[j].subject != subject
  }

  lemma {:induction false} NoticedIsLatest(w: World, rule: nat, subject: Slice, i: nat, test: bool)
    requires LatestTest(w, rule, subject, i, test)
    ensures Noticed(w, rule, subject) == Some(test)
  {
    if i < |w| - 1 {
      NoticedIsLatest(w[..|w| - 1], rule, subject, i, test);
    }
  }

  /**
   `transition`, after its test when the latest test of this rule on this subject was `before`: the
   second argument when the test now holds and did not before, the third when it no longer does.
   */
  lemma {:induction false} TransitionLaw(env: Env, ctx: Ctx, head: Value, test: Value, up: Value, down: Value, w: World, i: nat, before: bool)
    requires ctx.depth <= MAX_REENTRY_DEPTH && env.find(HeadText(head)) == Transition
    requires var c := Eval(env, ctx, test, w); c.r.Ok? && LatestTest(c.w, ctx.rule, ctx.subject, i, before)
    ensures var c := Eval(env, ctx, test, w);
      var now := Holds(c.r.value);
      var w1 := c.w + [Noted(ctx.depth, ctx.rule, ctx.subject, now)];
      LatestTest(w1, ctx.rule, ctx.subject, |c.w|, now) &&
      Eval(env, ctx, CallOf(head, [test, up, down]), w) ==
      if now && !before then Eval(env, ctx, up, w1)
      else if !now && before then Eval(env, ctx, down, w1)
      else Out(Ok(Nil), w1)
  {
    CallTo(env, ctx, head, [test, up, down], w);
    NoticedIsLatest(Eval(env, ctx, test, w).w, ctx.rule, ctx.subject, i, before);
  }

  lemma {:induction false} NothingNoticed(w: World, rule: nat, subject: Slice)
    requires forall i :: 0 <= i < |w| && w[i].Noted? && w[i].rule == rule ==> w[i].subject != subject
    ensures Noticed(w, rule, subject) == None
  {
    if w != [] {
      NothingNoticed(w[..|w| - 1], rule, subject);
    }
  }

  /** The first test of a transition, when its slot is empty, only fills the slot; a restored slot counts as a test before it. */
  lemma {:induction false} TransitionStarts(env: Env, ctx: Ctx, head: Value, test: Value, up: Value, down: Value, w: World)
    requires ctx.depth <= MAX_REENTRY_DEPTH && env.find(HeadText(head)) == Transition
    requires var c := Eval(env, ctx, test, w);
      c.r.Ok? && forall i :: 0 <= i < |c.w| && c.w[i].Noted? && c.w[i].rule == ctx.rule ==> c.w[i].subject != ctx.subject
    ensures var c, slot := Eval(env, ctx, test, w), env.start(ctx.rule, ctx.subject);
      var now := Holds(c.r.value);
      var w1 := c.w + [Noted(ctx.depth, ctx.rule, ctx.subject, now)];
      Eval(env, ctx, CallOf(head, [test, up, down]), w) ==
      if slot == None || slot.value == now then Out(Ok(Nil), w1)
      else Eval(env, ctx, if now then up else down, w1)
  {
    CallTo(env, ctx, head, [test, up, down], w);
    NothingNoticed(Eval(env, ctx, test, w).w, ctx.rule, ctx.subject);
  }

  /** `dropout` evaluates its interval and, when the stream was lost, its found form; the lost form is left to a tick. */
  lemma {:induction false} DropoutLaw(env: Env, ctx: Ctx, head: Value, ms: Value, lost: Value, found: Value, w: World)
    requires ctx.depth <= MAX_REENTRY_DEPTH && env.find(HeadText(head)) == Dropout
    ensures var c := Eval(env, ctx, ms, w);
      var w1 := c.w + [HeardFrom(ctx.depth, ctx.rule, ctx.subject)];
      Eval(env, ctx, CallOf(head, [Keyword(MS), ms, Keyword(LOST), lost, Keyword(FOUND), found]), w) ==
      if c.r.Err? || !env.millis(c.r.value) then Out(Err(TypeError), c.w)
      else if env.lost(c.w, ctx) then Eval(env, ctx, found, w1)
      else Out(Ok(Nil), w1)
  {
    CallTo(env, ctx, head, [Keyword(MS), ms, Keyword(LOST), lost, Keyword(FOUND), found], w);
  }

  /** `on-silence` evaluates its interval and nothing else. */
  lemma {:induction false} SilenceLaw(env: Env, ctx: Ctx, head: Value, ms: Value, body: seq<Value>, w: World)
    requires ctx.depth <= MAX_REENTRY_DEPTH && env.find(HeadText(head)) == OnSilence && body != []
    ensures var c := Eval(env, ctx, ms, w);
      Eval(env, ctx, CallOf(head, [Keyword(MS), ms] + body), w) ==
      Out(if c.r.Ok? && env.millis(c.r.value) then Ok(Nil) else Err(TypeError), c.w)
  {
    CallTo(env, ctx, head, [Keyword(MS), ms] + body, w);
  }

  // ----- the laws of calls -----

  /** Arguments are evaluated left to right, up to the first error. */
  lemma {:induction false} ArgsLaw(env: Env, ctx: Ctx, items: seq<Value>, x: Value, w: World)
    requires ctx.depth <= MAX_REENTRY_DEPTH
    ensures EvalArgs(env, ctx, [], w) == Args(None, [], w)
    ensures EvalArgs(env, ctx, items + [x], w) ==
      var a := EvalArgs(env, ctx, items, w);
      if a.r.Some? then a
      else
        var o := Eval(env, ctx, x, a.w);
        match o.r { case Err(e) => Args(Some(e), a.vs, o.w) case Ok(v) => Args(None, a.vs + [v], o.w) }
    decreases |items|
  {
    if items == [] {
      assert items + [x] == [x] && [x][1..] == [];
    } else {
      var o := Eval(env, ctx, items[0], w);
      assert (items + [x])[0] == items[0] && (items + [x])[1..] == items[1..] + [x];
      if o.r.Ok? {
        ArgsLaw(env, ctx, items[1..], x, o.w);
        var a := EvalArgs(env, ctx, items[1..], o.w);
        assert forall v :: [o.r.value] + (a.vs + [v]) == ([o.r.value] + a.vs) + [v];
      }
    }
  }

  /** A vector is the vector of its values. */
  lemma {:induction false} VectorLaw(env: Env, ctx: Ctx, items: seq<Value>, w: World)
    requires ctx.depth <= MAX_REENTRY_DEPTH
    ensures var a := EvalArgs(env, ctx, items, w);
      Eval(env, ctx, Vector(items), w) == Out(match a.r { case Some(e) => Err(e) case None => Ok(Vector(a.vs)) }, a.w)
  {
  }

  /** A plain form that publishes nothing gives what it returns, with no effect of its own. */
  lemma {:induction false} PlainLaw(env: Env, ctx: Ctx, head: Value, id: nat, args: seq<Value>, w: World)
    requires ctx.depth <= MAX_REENTRY_DEPTH && env.find(HeadText(head)) == Plain(id)
    ensures var o, a := Eval(env, ctx, CallOf(head, args), w), EvalArgs(env, ctx, args, w);
      match a.r
      case Some(e) => o == Out(Err(e), a.w)
      case None =>
        var out := env.plain(a.w, ctx, id, a.vs);
        out.pubs == [] ==>
          match out.result
          case Fails(e) => o == Out(Err(e), a.w)
          case Returns(SNil) => o == Out(Ok(Nil), a.w)
          case Returns(SBool(b)) => o == Out(Ok(Bool(b)), a.w)
          case Returns(SNum(n)) => o == Out(Ok(Num(n)), a.w)
          case Returns(SStr(t)) => o == Out(Ok(Str(t)), a.w)
          case ReturnsArg(i) => i < |a.vs| ==> o == Out(Ok(a.vs[i]), a.w)
  {
    CallTo(env, ctx, head, args, w);
  }

  // ----- what a publish sets off -----

  /** The messages published at this level, in order. */
  function PubsAt(w: World, depth: nat): seq<Pub> {
    if w == [] then []
    else
      var e := w[|w| - 1];
      PubsAt(w[..|w| - 1], depth) + if e.Published? && e.depth == depth then [e.pub] else []
  }

  /** The rules entered at this level, in order. */
  function RulesAt(w: World, depth: nat): seq<nat> {
    if w == [] then []
    else
      var e := w[|w| - 1];
      RulesAt(w[..|w| - 1], depth) + if e.Entered? && e.depth == depth then [e.rule] else []
  }

  lemma {:induction false} AtSnoc(w: World, e: Effect, depth: nat)
    ensures PubsAt(w + [e], depth) == PubsAt(w, depth) + if e.Published? && e.depth == depth then [e.pub] else []
    ensures RulesAt(w + [e], depth) == RulesAt(w, depth) + if e.Entered? && e.depth == depth then [e.rule] else []
  {
    assert (w + [e])[..|w|] == w;
  }

  /** Effects that are only added deeper do not show. */
  lemma {:induction false} DeeperHidden(w: World, w': World, depth: nat)
    requires Grows(w, w', depth + 1)
    ensures PubsAt(w', depth) == PubsAt(w, depth) && RulesAt(w', depth) == RulesAt(w, depth)
    decreases |w'|
  {
    if |w'| > |w| {
      var n := |w'| - 1;
      assert w'[..n][..|w|] == w;
      DeeperHidden(w, w'[..n], depth);
      AtSnoc(w'[..n], w'[n], depth);
      assert w' == w'[..n] + [w'[n]];
    } else {
      assert w' == w;
    }
  }

  lemma {:induction false} InsideHidden(w: World, w': World, depth: nat)
    requires Inside(w, w', depth)
    ensures RulesAt(w', depth) == RulesAt(w, depth)
    decreases |w'|
  {
    if |w'| > |w| {
      var n := |w'| - 1;
      assert w'[..n][..|w|] == w;
      InsideHidden(w, w'[..n], depth);
      AtSnoc(w'[..n], w'[n], depth);
      assert w' == w'[..n] + [w'[n]];
    } else {
      assert w' == w;
    }
  }

  /** The rules whose filter matches. */
  function Matching(env: Env, subject: Slice): nat -> bool {
    (k: nat) => k < |env.rules| && Matches(env.rules[k].filter, subject)
  }

  /** One rule on one message. */
  function Enter(env: Env, pub: Pub, depth: nat, k: nat, w: World): World
    requires depth <= MAX_REENTRY_DEPTH && k < |env.rules|
  {
    Eval(env, Ctx(k, depth, env.rules[k].reentrant, pub.subject, pub.payload), env.rules[k].body, w + [Entered(depth, k)]).w
  }

  /** The same as a function of the rule and the trace. */
  function Entering(env: Env, pub: Pub, depth: nat): (nat, World) -> World
    requires depth <= MAX_REENTRY_DEPTH
  {
    (k: nat, w: World) => if k < |env.rules| then Enter(env, pub, depth, k, w) else w
  }

  /** One step for each of these numbers, in turn. */
  function InTurn(step: (nat, World) -> World, ks: seq<nat>, w: World): World {
    if ks == [] then w else InTurn(step, ks[1..], step(ks[0], w))
  }

  /** The selected numbers from `k` on. */
  function SelectedFrom(k: nat, n: nat, p: nat -> bool): (ks: seq<nat>)
    requires k <= n
    ensures forall i :: 0 <= i < |ks| ==> ks[i] < n && p(ks[i])
  {
    Dispatch.SelectMonotone(k, n, p);
    var all, m := Dispatch.Select(n, p), |Dispatch.Select(k, p)|;
    assert forall i :: m <= i < |all| ==> all[i] in all;
    all[m..]
  }

  lemma {:induction false} SelectedNext(k: nat, n: nat, p: nat -> bool)
    requires k < n
    ensures SelectedFrom(k, n, p) == (if p(k) then [k] else []) + SelectedFrom(k + 1, n, p)
  {
    Dispatch.SelectMonotone(k, n, p);
    Dispatch.SelectMonotone(k + 1, n, p);
    var before, all := Dispatch.Select(k, p), Dispatch.Select(n, p);
    if p(k) {
      assert Dispatch.Select(k + 1, p) == before + [k];
      assert all[|before|] == k;
    }
  }

  lemma {:induction false} TurnFirst(step: (nat, World) -> World, k: nat, taken: bool, ks: seq<nat>, w: World)
    ensures InTurn(step, (if taken then [k] else []) + ks, w) == InTurn(step, ks, if taken then step(k, w) else w)
  {
    if taken {
      assert ([k] + ks)[0] == k && ([k] + ks)[1..] == ks;
    } else {
      assert [] + ks == ks;
    }
  }

  /** A loop that takes a step for the numbers from `k` on that satisfy `p` takes one for each selected number. */
  lemma {:induction false} LoopInTurn(n: nat, p: nat -> bool, step: (nat, World) -> World, loop: (nat, World) -> World, k: nat, w: World)
    requires k <= n && forall v :: loop(n, v) == v
    requires forall i: nat, v :: i < n ==> loop(i, v) == loop(i + 1, if p(i) then step(i, v) else v)
    ensures loop(k, w) == InTurn(step, SelectedFrom(k, n, p), w)
    decreases n - k
  {
    if k == n {
      assert SelectedFrom(k, n, p) == [];
    } else {
      LoopInTurn(n, p, step, loop, k + 1, if p(k) then step(k, w) else w);
      SelectedNext(k, n, p);
      TurnFirst(step, k, p(k), SelectedFrom(k + 1, n, p), w);
    }
  }

  function RuleLoop(env: Env, pub: Pub, depth: nat): (nat, World) -> World
    requires depth <= MAX_REENTRY_DEPTH
  {
    (k: nat, w: World) => if k <= |env.rules| then EvalRules(env, k, pub, depth, w) else w
  }

  lemma {:induction false} RulesNext(env: Env, k: nat, pub: Pub, depth: nat, w: World)
    requires depth <= MAX_REENTRY_DEPTH && k < |env.rules|
    ensures EvalRules(env, k, pub, depth, w) ==
      EvalRules(env, k + 1, pub, depth, if Matching(env, pub.subject)(k) then Enter(env, pub, depth, k, w) else w)
  {
  }

  /** A publish evaluates exactly the rules whose filter matches, each on the message, one after the other in source order. */
  lemma {:induction false} RulesInTurn(env: Env, pub: Pub, depth: nat, w: World)
    requires depth <= MAX_REENTRY_DEPTH
    ensures EvalRules(env, 0, pub, depth, w) ==
      InTurn(Entering(env, pub, depth), Dispatch.Select(|env.rules|, Matching(env, pub.subject)), w)
  {
    var n, p, step, loop := |env.rules|, Matching(env, pub.subject), Entering(env, pub, depth), RuleLoop(env, pub, depth);
    forall i: nat, v: World | i < n
      ensures loop(i, v) == loop(i + 1, if p(i) then step(i, v) else v)
    {
      RulesNext(env, i, pub, depth, v);
    }
    LoopInTurn(n, p, step, loop, 0, w);
    assert SelectedFrom(0, n, p) == Dispatch.Select(n, p);
  }

  lemma {:induction false} EnterShows(env: Env, pub: Pub, depth: nat, k: nat, w: World)
    requires depth <= MAX_REENTRY_DEPTH && k < |env.rules|
    ensures RulesAt(Enter(env, pub, depth, k, w), depth) == RulesAt(w, depth) + [k]
  {
    AtSnoc(w, Entered(depth, k), depth);
    InsideHidden(w + [Entered(depth, k)], Enter(env, pub, depth, k, w), depth);
  }

  /** Steps that each show their number. */
  lemma {:induction false} TurnsShow(step: (nat, World) -> World, n: nat, shows: World -> seq<nat>, ks: seq<nat>, w: World)
    requires forall i :: 0 <= i < |ks| ==> ks[i] < n
    requires forall k: nat, v :: k < n ==> shows(step(k, v)) == shows(v) + [k]
    ensures shows(InTurn(step, ks, w)) == shows(w) + ks
    decreases |ks|
  {
    if ks != [] {
      TurnsShow(step, n, shows, ks[1..], step(ks[0], w));
      assert (shows(w) + [ks[0]]) + ks[1..] == shows(w) + ks;
    }
  }

  function ShownAt(depth: nat): World -> seq<nat> {
    (w: World) => RulesAt(w, depth)
  }

  /** So the rules entered at the level of the publish are the matching ones, once each, in source order. */
  lemma {:induction false} RulesEntered(env: Env, pub: Pub, depth: nat, w: World)
    requires depth <= MAX_REENTRY_DEPTH
    ensures RulesAt(EvalRules(env, 0, pub, depth, w), depth) ==
      RulesAt(w, depth) + Dispatch.Select(|env.rules|, Matching(env, pub.subject))
  {
    var n, step := |env.rules|, Entering(env, pub, depth);
    var ks := Dispatch.Select(n, Matching(env, pub.subject));
    RulesInTurn(env, pub, depth, w);
    forall k: nat, v: World | k < n
      ensures ShownAt(depth)(step(k, v)) == ShownAt(depth)(v) + [k]
    {
      EnterShows(env, pub, depth, k, v);
    }
    assert forall i :: 0 <= i < |ks| ==> ks[i] in ks;
    TurnsShow(step, n, ShownAt(depth), ks, w);
  }

  /** A message of a form goes out; if the rule is reentrant and below the cap, the message is then evaluated one level deeper. */
  lemma {:induction false} PublishOne(env: Env, ctx: Ctx, pub: Pub, w: World)
    requires ctx.depth <= MAX_REENTRY_DEPTH && env.routes(w, pub)
    ensures var w1 := w + [Published(ctx.depth, ctx.rule, pub)];
      PublishAll(env, ctx, [pub], w) ==
      (true, if ctx.reentrant && ctx.depth < MAX_REENTRY_DEPTH then EvalRules(env, 0, pub, ctx.depth + 1, w1) else w1)
  {
    assert [pub][1..] == [];
  }

  lemma {:induction false} PublishShows(ctx: Ctx, pub: Pub, w: World)
    ensures var w1 := w + [Published(ctx.depth, ctx.rule, pub)];
      PubsAt(w1, ctx.depth) == PubsAt(w, ctx.depth) + [pub] && RulesAt(w1, ctx.depth + 1) == RulesAt(w, ctx.depth + 1)
  {
    AtSnoc(w, Published(ctx.depth, ctx.rule, pub), ctx.depth);
    AtSnoc(w, Published(ctx.depth, ctx.rule, pub), ctx.depth + 1);
  }

  /** There it enters exactly the matching rules, in source order, and what these publish in turn is deeper still. */
  lemma {:induction false} ReentryShows(env: Env, pub: Pub, depth: nat, w: World)
    requires depth < MAX_REENTRY_DEPTH
    ensures var w' := EvalRules(env, 0, pub, depth + 1, w);
      PubsAt(w', depth) == PubsAt(w, depth) &&
      RulesAt(w', depth + 1) == RulesAt(w, depth + 1) + Dispatch.Select(|env.rules|, Matching(env, pub.subject))
  {
    RulesEntered(env, pub, depth + 1, w);
    DeeperHidden(w, EvalRules(env, 0, pub, depth + 1, w), depth);
  }

  /** Several messages go out one after the other, up to the first that cannot be routed. */
  lemma {:induction false} PublishesInOrder(env: Env, ctx: Ctx, pubs: seq<Pub>, w: World)
    requires ctx.depth <= MAX_REENTRY_DEPTH && pubs != []
    ensures var first := PublishAll(env, ctx, [pubs[0]], w);
      PublishAll(env, ctx, pubs, w) == if first.0 then PublishAll(env, ctx, pubs[1..], first.1) else first
    ensures !env.routes(w, pubs[0]) ==> PublishAll(env, ctx, pubs, w) == (false, w)
  {
    assert [pubs[0]][1..] == [];
  }
}
