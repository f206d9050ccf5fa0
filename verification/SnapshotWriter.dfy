/**
 The two loops of `src/snapshot.c` around the codec: `mb_snapshot_build`, which reads rings where
 they lie in memory, and the record loop of `mb_snapshot_load`.
 */
module SnapshotWriter {
  import opened Bytes
  import opened Snapshot
  import Frames
  import LastValues
  import Windows

  // ----- slots as they lie in memory -----

  datatype RingCells = RingCells(timed: bool, window: u64, values: seq<u64>, times: seq<u64>, start: nat, len: nat, sum: u64)

  datatype Cells = Ring(ring: RingCells) | Plain(state: SlotState)

  datatype SlotCells = SlotCells(op: Slice, subject: Slice, cells: Cells)

  datatype RuleCells = RuleCells(filter: Slice, slots: seq<SlotCells>)

  predicate RingOk(r: RingCells) {
    r.len <= |r.values| && (|r.values| > 0 ==> r.start < |r.values|) && (r.timed ==> |r.times| == |r.values|)
  }

  predicate CellsOk(c: Cells) {
    match c
    case Ring(r) => RingOk(r)
    case Plain(st) => !st.CountRing? && !st.TimeRing? && (st.BarState? ==> st.bar.count < U32 && st.bar.cap < U32)
  }

  function SamplesOf(r: RingCells): (ss: seq<Timed>)
    requires RingOk(r) && r.timed
    ensures |ss| == r.len
  {
    var xs, ts := Windows.Unroll(r.values, r.start, r.len), Windows.Unroll(r.times, r.start, r.len);
    seq(r.len, i requires 0 <= i < r.len => Timed(xs[i], ts[i]))
  }

  /** What the cells amount to: a ring's contents in order, wherever it starts. */
  function Observe(c: Cells): SlotState
    requires CellsOk(c)
  {
    match c
    case Plain(st) => st
    case Ring(r) =>
      if r.timed then TimeRing(r.window, SamplesOf(r), r.sum)
      else CountRing(|r.values|, Windows.Unroll(r.values, r.start, r.len), r.sum)
  }

  function ObserveSlot(s: SlotCells): Entry
    requires CellsOk(s.cells)
  {
    Entry(s.op, s.subject, Observe(s.cells))
  }

  predicate RuleCellsOk(r: RuleCells) {
    forall i :: 0 <= i < |r.slots| ==> CellsOk(r.slots[i].cells)
  }

  function ObserveSlots(slots: seq<SlotCells>): (es: seq<Entry>)
    requires forall i :: 0 <= i < |slots| ==> CellsOk(slots[i].cells)
    ensures |es| == |slots|
  {
    seq(|slots|, i requires 0 <= i < |slots| => ObserveSlot(slots[i]))
  }

  predicate AllCellsOk(rules: seq<RuleCells>) {
    forall i :: 0 <= i < |rules| ==> RuleCellsOk(rules[i])
  }

  function ObserveRules(rules: seq<RuleCells>): (rs: seq<RuleSlots>)
    requires AllCellsOk(rules)
    ensures |rs| == |rules|
  {
    seq(|rules|, i requires 0 <= i < |rules| => assert RuleCellsOk(rules[i]); RuleSlots(rules[i].filter, ObserveSlots(rules[i].slots)))
  }

  // ----- writing -----

  /** `append_len_prefixed`. */
  method AppendField(out: Frames.Buf, s: Slice) returns (ok: bool)
    modifies out
    ensures ok <==> |s| <= MAX_FIELD
    ensures ok ==> out.data == old(out.data) + Field(s)
  {
    if |s| > MAX_FIELD {
      return false;
    }
    Frames.Assoc(out.data, EncLe(|s|, 4), s);
    out.Append(EncLe(|s|, 4));
    out.Append(s);
    ok := true;
  }

  /** `append_key`. */
  method AppendKey(out: Frames.Buf, op: Slice, subject: Slice) returns (ok: bool)
    modifies out
    ensures ok <==> |Key(op, subject)| <= MAX_FIELD
    ensures ok ==> out.data == old(out.data) + Field(Key(op, subject))
  {
    var total := |op| + 1 + |subject|;
    assert total == |Key(op, subject)|;
    if total > MAX_FIELD {
      return false;
    }
    ghost var goal := out.data + Field(Key(op, subject));
    Frames.Put(out, EncLe(total, 4), Key(op, subject), goal);
    Frames.Put(out, op, [COLON] + subject, goal);
    Frames.Put(out, [COLON], subject, goal);
    out.Append(subject);
    ok := true;
  }

  /** The samples of a time ring, oldest first. */
  method AppendSamples(out: Frames.Buf, r: RingCells)
    requires RingOk(r) && r.timed
    modifies out
    ensures out.data == old(out.data) + EncWords(Interleave(SamplesOf(r)))
  {
    ghost var ss := SamplesOf(r);
    ghost var goal := out.data + EncWords(Interleave(ss));
    assert ss[0..] == ss;
    for i := 0 to r.len
      invariant out.data + EncWords(Interleave(ss[i..])) == goal
    {
      var idx := Windows.At(r.start, i, |r.values|);
      SampleWords(ss, i);
      Frames.Put(out, EncLe(r.values[idx], 8), EncLe(r.times[idx], 8) + EncWords(Interleave(ss[i + 1..])), goal);
      Frames.Put(out, EncLe(r.times[idx], 8), EncWords(Interleave(ss[i + 1..])), goal);
    }
  }

  lemma {:induction false} SampleWords(ss: seq<Timed>, i: nat)
    requires i < |ss|
    ensures EncWords(Interleave(ss[i..])) == EncLe(ss[i].x, 8) + (EncLe(ss[i].t, 8) + EncWords(Interleave(ss[i + 1..])))
  {
    var ws := Interleave(ss[i..]);
    assert ss[i..][1..] == ss[i + 1..];
    assert ws == [ss[i].x, ss[i].t] + Interleave(ss[i + 1..]);
    assert ws[1..] == [ss[i].t] + Interleave(ss[i + 1..]);
    assert ws[1..][1..] == Interleave(ss[i + 1..]);
  }

  /** The cells of a count ring: its values, oldest first, then zeros. */
  method AppendCells(out: Frames.Buf, r: RingCells)
    requires RingOk(r) && !r.timed
    modifies out
    ensures out.data == old(out.data) + EncWords(Snapshot.Cells(Observe(Ring(r))))
  {
    ghost var ws := Snapshot.Cells(Observe(Ring(r)));
    ghost var goal := out.data + EncWords(ws);
    assert ws[0..] == ws;
    for i := 0 to |r.values|
      invariant out.data + EncWords(ws[i..]) == goal
    {
      var value: u64 := 0;
      if i < r.len {
        value := r.values[Windows.At(r.start, i, |r.values|)];
      }
      assert value == ws[i] && ws[i..][1..] == ws[i + 1..];
      Frames.Put(out, EncLe(value, 8), EncWords(ws[i + 1..]), goal);
    }
  }

  /** The ring branch of `append_rule_state`. */
  method AppendRing(out: Frames.Buf, r: RingCells) returns (ok: bool)
    requires RingOk(r)
    modifies out
    ensures ok <==> Writable(Observe(Ring(r)))
    ensures ok ==> out.data == old(out.data) + EncState(Observe(Ring(r)))
  {
    ghost var st := Observe(Ring(r));
    if r.timed {
      if r.len >= U32 {
        return false;
      }
      ghost var goal, words := out.data + EncState(st), EncWords(Interleave(SamplesOf(r)));
      Frames.Put(out, [5], EncLe(r.window, 8) + (EncLe(r.len, 4) + words), goal);
      Frames.Put(out, EncLe(r.window, 8), EncLe(r.len, 4) + words, goal);
      Frames.Put(out, EncLe(r.len, 4), words, goal);
      AppendSamples(out, r);
      return true;
    }
    if |r.values| >= U32 {
      return false;
    }
    var z := EncLe(0, 4);
    ghost var goal, words := out.data + EncState(st), EncWords(Snapshot.Cells(st));
    Frames.Put(out, [3], EncLe(|r.values|, 4) + (EncLe(r.len, 8) + (EncLe(r.sum, 8) + (words + (z + z)))), goal);
    Frames.Put(out, EncLe(|r.values|, 4), EncLe(r.len, 8) + (EncLe(r.sum, 8) + (words + (z + z))), goal);
    Frames.Put(out, EncLe(r.len, 8), EncLe(r.sum, 8) + (words + (z + z)), goal);
    Frames.Put(out, EncLe(r.sum, 8), words + (z + z), goal);
    Frames.Assoc(out.data, words, z + z);
    AppendCells(out, r);
    out.Append(z + z);
    ok := true;
  }

  /** The switch of `append_rule_state`, for a slot that is not a clock. */
  method AppendState(out: Frames.Buf, c: Cells) returns (ok: bool)
    requires CellsOk(c) && !Observe(c).ClockState?
    modifies out
    ensures ok <==> Writable(Observe(c))
    ensures ok ==> out.data == old(out.data) + EncState(Observe(c))
  {
    match c
    case Ring(r) => ok := AppendRing(out, r);
    case Plain(st) =>
      match st {
        case Empty => out.Append([0]); ok := true;
        case BytesState(data) =>
          ghost var was := out.data;
          out.Append([1]);
          ok := AppendField(out, data);
          if ok { Frames.Assoc(was, [1], Field(data)); }
        case Number(bits) =>
          Frames.Assoc(out.data, [2], EncLe(bits, 8));
          out.Append([2]);
          AppendU64(out, bits);
          ok := true;
        case BarState(timed, bar) =>
          out.Append([4] + BarWords(bar, timed));
          ok := true;
      }
  }

  lemma {:induction false} EncRecordsSnoc(rs: seq<Record>, r: Record)
    requires AllWritable(rs) && RecordWritable(r)
    ensures AllWritable(rs + [r]) && EncRecords(rs + [r]) == EncRecords(rs) + EncRecord(r)
  {
    if rs == [] {
      assert rs + [r] == [r] && [r][1..] == [];
      assert EncRecord(r) + [] == EncRecord(r);
    } else {
      assert (rs + [r])[1..] == rs[1..] + [r];
      EncRecordsSnoc(rs[1..], r);
      Frames.Assoc(EncRecord(rs[0]), EncRecords(rs[1..]), EncRecord(r));
    }
  }

  /** One slot's record. */
  method AppendSlot(out: Frames.Buf, rule: nat, filter: Slice, s: SlotCells) returns (ok: bool)
    requires CellsOk(s.cells) && !Observe(s.cells).ClockState? && rule < U32
    modifies out
    ensures ok <==> RecordWritable(StateRecord(rule, filter, ObserveSlot(s)))
    ensures ok ==> out.data == old(out.data) + EncRecord(StateRecord(rule, filter, ObserveSlot(s)))
  {
    ghost var base := out.data;
    out.Append([STATE_KIND]);
    out.Append(EncLe(rule, 4));
    ok := AppendField(out, filter);
    if !ok {
      return;
    }
    ok := AppendKey(out, s.op, s.subject);
    if !ok {
      return;
    }
    ok := AppendState(out, s.cells);
    if ok {
      ghost var k, f, key, st := EncLe(rule, 4), Field(filter), Field(Key(s.op, s.subject)), EncState(Observe(s.cells));
      assert out.data == (((base + [STATE_KIND]) + k) + f) + key + st;
      Frames.Assoc(((base + [STATE_KIND]) + k) + f, key, st);
      Frames.Assoc((base + [STATE_KIND]) + k, f, key + st);
      Frames.Assoc(base + [STATE_KIND], k, f + (key + st));
      Frames.Assoc(base, [STATE_KIND], k + (f + (key + st)));
    }
  }

  lemma {:induction false} KeptSnoc(es: seq<Entry>, e: Entry)
    ensures Kept(es + [e]) == Kept(es) + if e.state.ClockState? then [] else [e]
  {
    if es == [] {
      assert es + [e] == [e] && [e][1..] == [];
    } else {
      assert (es + [e])[1..] == es[1..] + [e];
      KeptSnoc(es[1..], e);
    }
  }

  /** The records written so far follow `base`. */
  ghost predicate Wrote(data: Slice, base: Slice, rs: seq<Record>) {
    AllWritable(rs) && data == base + EncRecords(rs)
  }

  lemma {:induction false} PrefixSnoc(rs: seq<Record>, i: nat)
    requires i < |rs|
    ensures rs[..i] + [rs[i]] == rs[..i + 1]
  {
  }

  lemma {:induction false} PrefixWhole(rs: seq<Record>)
    ensures rs[..|rs|] == rs && rs[..0] == []
  {
  }

  lemma {:induction false} WroteNone(base: Slice)
    ensures Wrote(base, base, [])
  {
    assert base + [] == base;
  }

  lemma {:induction false} WroteOne(base: Slice, rs: seq<Record>, r: Record)
    requires AllWritable(rs) && RecordWritable(r)
    ensures Wrote((base + EncRecords(rs)) + EncRecord(r), base, rs + [r])
  {
    EncRecordsSnoc(rs, r);
    Frames.Assoc(base, EncRecords(rs), EncRecord(r));
  }

  /** One iteration of the inner loop of `append_rule_state`: a clock slot is left out. */
  method AppendNext(out: Frames.Buf, rule: nat, filter: Slice, s: SlotCells, ghost base: Slice, ghost rs: seq<Record>) returns (ok: bool)
    requires CellsOk(s.cells) && rule < U32 && Wrote(out.data, base, rs)
    modifies out
    ensures ok <==> AllWritable(SlotRecords(rule, filter, Kept([ObserveSlot(s)])))
    ensures ok ==> Wrote(out.data, base, rs + SlotRecords(rule, filter, Kept([ObserveSlot(s)])))
  {
    ghost var e := ObserveSlot(s);
    assert [e][1..] == [];
    if s.cells.Plain? && s.cells.state.ClockState? {
      assert Kept([e]) == [] && rs + [] == rs;
      return true;
    }
    ok := AppendSlot(out, rule, filter, s);
    assert SlotRecords(rule, filter, Kept([e])) == [StateRecord(rule, filter, e)];
    if ok {
      WroteOne(base, rs, StateRecord(rule, filter, e));
    } else {
      assert !RecordWritable(SlotRecords(rule, filter, Kept([e]))[0]);
    }
  }

  lemma {:induction false} KeptConcat(a: seq<Entry>, b: seq<Entry>)
    ensures Kept(a + b) == Kept(a) + Kept(b)
  {
    if a == [] {
      assert a + b == b;
    } else {
      assert (a + b)[1..] == a[1..] + b;
      KeptConcat(a[1..], b);
    }
  }

  lemma {:induction false} SlotRecordsConcat(rule: nat, filter: Slice, a: seq<Entry>, b: seq<Entry>)
    ensures SlotRecords(rule, filter, Kept(a + b)) == SlotRecords(rule, filter, Kept(a)) + SlotRecords(rule, filter, Kept(b))
  {
    KeptConcat(a, b);
  }

  /** The records of the first slots, of the next one, and of the others. */
  lemma {:induction false} SlotRecordsAt(rule: nat, filter: Slice, es: seq<Entry>, i: nat)
    requires i < |es|
    ensures SlotRecords(rule, filter, Kept(es[..i + 1])) ==
      SlotRecords(rule, filter, Kept(es[..i])) + SlotRecords(rule, filter, Kept([es[i]]))
    ensures AllWritable(SlotRecords(rule, filter, Kept(es))) ==> AllWritable(SlotRecords(rule, filter, Kept([es[i]])))
  {
    assert es[..i + 1] == es[..i] + [es[i]];
    SlotRecordsConcat(rule, filter, es[..i], [es[i]]);
    assert es == es[..i + 1] + es[i + 1..];
    SlotRecordsConcat(rule, filter, es[..i + 1], es[i + 1..]);
    WritableParts(SlotRecords(rule, filter, Kept(es[..i + 1])), SlotRecords(rule, filter, Kept(es[i + 1..])));
    WritableParts(SlotRecords(rule, filter, Kept(es[..i])), SlotRecords(rule, filter, Kept([es[i]])));
  }

  /** The inner loop of `append_rule_state`: the slots of one rule. */
  method AppendRule(out: Frames.Buf, rule: nat, r: RuleCells, ghost base: Slice, ghost rs: seq<Record>) returns (ok: bool)
    requires RuleCellsOk(r) && rule < U32 && Wrote(out.data, base, rs)
    modifies out
    ensures ok <==> AllWritable(SlotRecords(rule, r.filter, Kept(ObserveSlots(r.slots))))
    ensures ok ==> Wrote(out.data, base, rs + SlotRecords(rule, r.filter, Kept(ObserveSlots(r.slots))))
  {
    ghost var es := ObserveSlots(r.slots);
    ghost var done: seq<Record> := [];
    assert rs + done == rs && es[..0] == [];
    for i := 0 to |r.slots|
      invariant Wrote(out.data, base, rs + done) && done == SlotRecords(rule, r.filter, Kept(es[..i])) && AllWritable(done)
    {
      SlotRecordsAt(rule, r.filter, es, i);
      ok := AppendNext(out, rule, r.filter, r.slots[i], base, rs + done);
      if !ok {
        return;
      }
      ghost var next := SlotRecords(rule, r.filter, Kept([es[i]]));
      WritableParts(done, next);
      RecordsAssoc(rs, done, next);
      done := done + next;
    }
    assert es[..|r.slots|] == es;
    ok := true;
  }

  lemma {:induction false} RecordsAssoc(a: seq<Record>, b: seq<Record>, c: seq<Record>)
    ensures (a + b) + c == a + (b + c)
  {
  }

  /** `append_rule_state`. */
  method AppendRules(out: Frames.Buf, rules: seq<RuleCells>, ghost base: Slice, ghost rs: seq<Record>) returns (ok: bool)
    requires AllCellsOk(rules) && |rules| <= U32 && Wrote(out.data, base, rs)
    modifies out
    ensures ok <==> AllWritable(RuleRecords(ObserveRules(rules), 0))
    ensures ok ==> Wrote(out.data, base, rs + RuleRecords(ObserveRules(rules), 0))
  {
    ghost var seen := ObserveRules(rules);
    ghost var done, all := rs, rs + RuleRecords(seen, 0);
    for k := 0 to |rules|
      invariant Wrote(out.data, base, done) && done + RuleRecords(seen, k) == all
      invariant AllWritable(RuleRecords(seen, 0)) <==> AllWritable(RuleRecords(seen, k))
    {
      assert RuleCellsOk(rules[k]);
      RuleWritten(seen, k, done, all);
      ok := AppendRule(out, k, rules[k], base, done);
      if !ok {
        return;
      }
      done := done + SlotRecords(k, seen[k].filter, Kept(seen[k].entries));
    }
    RulesWritten(seen, done, all);
    ok := true;
  }

  lemma {:induction false} RulesWritten(seen: seq<RuleSlots>, done: seq<Record>, all: seq<Record>)
    requires done + RuleRecords(seen, |seen|) == all
    ensures done == all && AllWritable(RuleRecords(seen, |seen|))
  {
  }

  lemma {:induction false} RuleWritten(seen: seq<RuleSlots>, k: nat, done: seq<Record>, all: seq<Record>)
    requires k < |seen| && done + RuleRecords(seen, k) == all
    ensures var mine := SlotRecords(k, seen[k].filter, Kept(seen[k].entries));
      (done + mine) + RuleRecords(seen, k + 1) == all &&
      (AllWritable(RuleRecords(seen, k)) <==> AllWritable(mine) && AllWritable(RuleRecords(seen, k + 1)))
  {
    var mine := SlotRecords(k, seen[k].filter, Kept(seen[k].entries));
    RecordsAssoc(done, mine, RuleRecords(seen, k + 1));
    WritableParts(mine, RuleRecords(seen, k + 1));
  }

  /** A record of the last-value cache. */
  method AppendLvc(out: Frames.Buf, subject: Slice, payload: Slice) returns (ok: bool)
    modifies out
    ensures ok <==> RecordWritable(LvcRecord(subject, payload))
    ensures ok ==> out.data == old(out.data) + EncRecord(LvcRecord(subject, payload))
  {
    ghost var base := out.data;
    out.Append([LVC_KIND]);
    ok := AppendField(out, subject);
    if !ok {
      return;
    }
    ok := AppendField(out, payload);
    if ok {
      Frames.Assoc(base + [LVC_KIND], Field(subject), Field(payload));
      Frames.Assoc(base, [LVC_KIND], Field(subject) + Field(payload));
    }
  }

  method AppendEntry(out: Frames.Buf, subject: Slice, payload: Slice, ghost base: Slice, ghost rs: seq<Record>) returns (ok: bool)
    requires Wrote(out.data, base, rs)
    modifies out
    ensures ok <==> RecordWritable(LvcRecord(subject, payload))
    ensures ok ==> Wrote(out.data, base, rs + [LvcRecord(subject, payload)])
  {
    ok := AppendLvc(out, subject, payload);
    if ok {
      WroteOne(base, rs, LvcRecord(subject, payload));
    }
  }

  /** The first loop of `mb_snapshot_build`, over the entries of the cache. */
  method AppendEntries(out: Frames.Buf, subjects: seq<Slice>, payloads: seq<Slice>, ghost base: Slice, ghost all: seq<Record>)
    returns (ok: bool)
    requires |subjects| == |payloads| == |all| && forall i :: 0 <= i < |all| ==> all[i] == LvcRecord(subjects[i], payloads[i])
    requires out.data == base
    modifies out
    ensures ok <==> AllWritable(all)
    ensures ok ==> Wrote(out.data, base, all)
  {
    WroteNone(base);
    PrefixWhole(all);
    for i := 0 to |subjects|
      invariant Wrote(out.data, base, all[..i])
    {
      ok := AppendEntry(out, subjects[i], payloads[i], base, all[..i]);
      if !ok {
        assert !RecordWritable(all[i]);
        return;
      }
      PrefixSnoc(all, i);
    }
    PrefixWhole(all);
    ok := true;
  }

  method AppendCache(out: Frames.Buf, lvc: LastValues.Lvc, ghost base: Slice) returns (ok: bool)
    requires lvc.Valid() && out.data == base
    modifies out
    ensures ok <==> AllWritable(LvcRecords(lvc.Entries()))
    ensures ok ==> Wrote(out.data, base, LvcRecords(lvc.Entries()))
  {
    ok := AppendEntries(out, lvc.index.keys, lvc.payloads, base, LvcRecords(lvc.Entries()));
  }

  /**
   `mb_snapshot_build`: it succeeds exactly when every field fits, and then writes exactly the file
   that `SnapshotRoundTrip` loads.
   */
  method Build(lvc: LastValues.Lvc, rules: seq<RuleCells>) returns (ok: bool, out: Frames.Buf)
    requires lvc.Valid() && AllCellsOk(rules) && |rules| <= U32
    ensures ok <==> AllWritable(Records(lvc.Entries(), ObserveRules(rules)))
    ensures ok ==> Wrote(out.data, HEADER, Records(lvc.Entries(), ObserveRules(rules)))
  {
    out := new Frames.Buf();
    out.Append(HEADER);
    WritableParts(LvcRecords(lvc.Entries()), RuleRecords(ObserveRules(rules), 0));
    ok := AppendCache(out, lvc, HEADER);
    if ok {
      ok := AppendRules(out, rules, HEADER, LvcRecords(lvc.Entries()));
    }
  }

  // ----- loading -----

  /** The record loop of `mb_snapshot_load`. */
  method LoadRecordsInto(body: Slice, lvc: LastValues.Lvc, t: Target, rules: seq<seq<Entry>>) returns (ok: bool, rules': seq<seq<Entry>>)
    requires lvc.Valid() && t.config == lvc.config && |rules| == |t.filters|
    modifies lvc`payloads, lvc`payloadBytes, lvc.index`keys, lvc.index`cells, lvc.index`at, lvc.index.cells
    ensures lvc.Valid()
    ensures ok <==> Load(t, body, Loaded(old(lvc.Entries()), rules)).Some?
    ensures ok ==> Load(t, body, Loaded(old(lvc.Entries()), rules)) == Some(Loaded(lvc.Entries(), rules'))
  {
    var rest := body;
    rules' := rules;
    while rest != []
      invariant lvc.Valid() && t.config == lvc.config && |rules'| == |t.filters|
      invariant lvc.index.cells == old(lvc.index.cells) || fresh(lvc.index.cells)
      invariant Load(t, body, Loaded(old(lvc.Entries()), rules)) == Load(t, rest, Loaded(lvc.Entries(), rules'))
      decreases |rest|
    {
      if rest[0] == LVC_KIND {
        var r := ReadLvc(rest[1..]);
        if r.None? {
          return false, rules';
        }
        var (store, rest') := r.value;
        var stored := lvc.StoreValue(store.subject, store.payload);
        if !stored {
          return false, rules';
        }
        rest := rest';
      } else if rest[0] == STATE_KIND {
        var r := ReadRule(t.add, rest[1..]);
        if r.None? {
          return false, rules';
        }
        var (record, rest') := r.value;
        rules' := AddSlot(t, rules', record);
        rest := rest';
      } else {
        return false, rules';
      }
    }
    ok := true;
  }

  /** `mb_snapshot_load` on the bytes of a file that is there, which may be anything. */
  method LoadSnapshot(file: Slice, lvc: LastValues.Lvc, t: Target, rules: seq<seq<Entry>>) returns (ok: bool, rules': seq<seq<Entry>>)
    requires lvc.Valid() && t.config == lvc.config && |rules| == |t.filters|
    modifies lvc`payloads, lvc`payloadBytes, lvc.index`keys, lvc.index`cells, lvc.index`at, lvc.index.cells
    ensures lvc.Valid()
    ensures ok <==> LoadFile(t, file, Loaded(old(lvc.Entries()), rules)).Some?
    ensures ok ==> LoadFile(t, file, Loaded(old(lvc.Entries()), rules)) == Some(Loaded(lvc.Entries(), rules'))
  {
    if |file| < 8 || file[..4] != HEADER[..4] || file[4] < 3 || file[4] > 4 {
      return true, rules;
    }
    ok, rules' := LoadRecordsInto(file[8..], lvc, t, rules);
  }

  /**
   Saving and loading: `lvc` is a cache filled under the filters of `t`, `empty` an empty one with
   the same filters. The file is written exactly when every field fits, loads exactly when no count
   ring is too large for the loader, and then gives the same cache and the slots as `Reloaded` says, clocks aside.
   */
  method SaveAndLoad(lvc: LastValues.Lvc, rules: seq<RuleCells>, t: Target, empty: LastValues.Lvc)
    returns (saved: bool, loaded: bool, rules': seq<seq<Entry>>)
    requires lvc.Valid() && AllCellsOk(rules) && |rules| <= U32
    requires LastValues.Filled(t.config, lvc.Entries()) && RulesOk(t, ObserveRules(rules))
    requires empty.Valid() && empty.config == t.config && empty.Entries() == LastValues.EMPTY_CACHE
    requires empty != lvc && empty.index != lvc.index && empty.index.cells != lvc.index.cells
    modifies empty`payloads, empty`payloadBytes, empty.index`keys, empty.index`cells, empty.index`at, empty.index.cells
    ensures saved <==> AllWritable(Records(lvc.Entries(), ObserveRules(rules)))
    ensures loaded <==> saved && AllLoad(Records(lvc.Entries(), ObserveRules(rules)))
    ensures loaded ==> empty.Valid() && empty.Entries() == lvc.Entries() && rules' == Restored(t.add, ObserveRules(rules), |rules|)
    ensures loaded ==> forall r :: 0 <= r < |rules'| ==> SumsOk(t.add, rules'[r])
  {
    ghost var m, seen := lvc.Entries(), ObserveRules(rules);
    loaded, rules' := false, [];
    var out;
    saved, out := Build(lvc, rules);
    if saved {
      SnapshotRoundTrip(t, m, seen);
      var none := seq(|rules|, _ => []);
      assert none == Restored(t.add, seen, 0);
      loaded, rules' := LoadSnapshot(out.data, empty, t, none);
      RestoredSums(t.add, seen);
    }
  }

  lemma {:induction false} ObserveOne(filter: Slice, slot: SlotCells)
    requires CellsOk(slot.cells)
    ensures AllCellsOk([RuleCells(filter, [slot])])
    ensures ObserveRules([RuleCells(filter, [slot])]) == [RuleSlots(filter, [ObserveSlot(slot)])]
  {
    var rules := [RuleCells(filter, [slot])];
    assert RuleCellsOk(rules[0]);
    assert ObserveRules(rules)[0] == RuleSlots(filter, ObserveSlots([slot]));
    assert ObserveSlots([slot]) == [ObserveSlot(slot)];
  }

  lemma {:induction false} RecordsOfOne(filter: Slice, e: Entry)
    requires !e.state.ClockState?
    ensures Records(LastValues.EMPTY_CACHE, [RuleSlots(filter, [e])]) == [StateRecord(0, filter, e)]
  {
    var rules := [RuleSlots(filter, [e])];
    assert Kept([e]) == [e] + Kept([]) && RuleRecords(rules, 1) == [];
    assert SlotRecords(0, filter, [e]) == [StateRecord(0, filter, e)];
    assert LvcRecords(LastValues.EMPTY_CACHE) == [];
  }

  /**
   A program with one count ring of a capacity that the writer takes and the loader does not: `Build`
   writes its file, and the loader refuses it.
   */
  lemma {:induction false} HugeRingExample(config: LastValues.Config, add: (u64, u64) -> u64)
    ensures var cells := RingCells(false, 0, Zeros(MAX_FIELD / 8 + 1), [], 0, 0, 0);
      var rules := [RuleCells([GT], [SlotCells([], [], Ring(cells))])];
      var t := Target(config, [[GT]], add);
      AllCellsOk(rules) && RulesOk(t, ObserveRules(rules)) &&
      AllWritable(Records(LastValues.EMPTY_CACHE, ObserveRules(rules))) &&
      LoadFile(t, HEADER + EncRecords(Records(LastValues.EMPTY_CACHE, ObserveRules(rules))), Loaded(LastValues.EMPTY_CACHE, [[]])) == None
  {
    var slot := SlotCells([], [], Ring(RingCells(false, 0, Zeros(MAX_FIELD / 8 + 1), [], 0, 0, 0)));
    var t := Target(config, [[GT]], add);
    var e := ObserveSlot(slot);
    var r := StateRecord(0, [GT], e);
    ObserveOne([GT], slot);
    RecordsOfOne([GT], e);
    assert RecordWritable([r][0]) && !RecordLoads([r][0]);
    assert Restored(t.add, [RuleSlots([GT], [e])], 0) == [[]];
    SnapshotRoundTrip(t, LastValues.EMPTY_CACHE, [RuleSlots([GT], [e])]);
  }
}
