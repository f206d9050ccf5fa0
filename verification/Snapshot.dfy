/**
 The snapshot codec (`src/snapshot.c`): a writer that appends records to a buffer and a loader that
 reads them back. A double is its 64-bit pattern; a cursor into the file is the bytes from it on.
 */
module Snapshot {
  import opened Bytes
  import opened Subjects
  import Frames
  import HashIndex
  import LastValues
  import Windows

  const MAX_FIELD: nat := 16 * 1024 * 1024
  const U32: nat := 0x1_0000_0000
  const U64: nat := 0x1_0000_0000_0000_0000

  type u64 = x: int | 0 <= x < 0x1_0000_0000_0000_0000

  // ----- little-endian integers -----

  function Pow256(n: nat): nat {
    if n == 0 then 1 else 256 * Pow256(n - 1)
  }

  function EncLe(v: nat, n: nat): (s: Slice)
    ensures |s| == n
  {
    if n == 0 then [] else [v % 256] + EncLe(v / 256, n - 1)
  }

  function DecLe(s: Slice): nat {
    if s == [] then 0 else s[0] + 256 * DecLe(s[1..])
  }

  lemma {:induction false} LeRoundTrip(v: nat, n: nat)
    requires v < Pow256(n)
    ensures DecLe(EncLe(v, n)) == v
  {
    if n > 0 {
      LeRoundTrip(v / 256, n - 1);
      assert EncLe(v, n)[1..] == EncLe(v / 256, n - 1);
    }
  }

  lemma {:induction false} DecLeBound(s: Slice)
    ensures DecLe(s) < Pow256(|s|)
  {
    if s != [] { DecLeBound(s[1..]); }
  }

  lemma {:induction false} Widths()
    ensures Pow256(4) == U32 && Pow256(8) == U64
  {
    assert Pow256(1) == 256 && Pow256(2) == 65536 && Pow256(3) == 0x100_0000 && Pow256(4) == U32;
    assert Pow256(5) == 0x100_0000_0000 && Pow256(6) == 0x1_0000_0000_0000 && Pow256(7) == 0x100_0000_0000_0000;
  }

  function Read(s: Slice, n: nat): (r: Option<(nat, Slice)>)
    ensures r.Some? ==> |r.value.1| == |s| - n && r.value.0 < Pow256(n)
  {
    if |s| < n then None else DecLeBound(s[..n]); Some((DecLe(s[..n]), s[n..]))
  }

  lemma {:induction false} ReadBack(v: nat, n: nat, rest: Slice)
    requires v < Pow256(n)
    ensures Read(EncLe(v, n) + rest, n) == Some((v, rest))
  {
    LeRoundTrip(v, n);
    var s := EncLe(v, n) + rest;
    assert s[..n] == EncLe(v, n) && s[n..] == rest;
  }

  function ReadU64(s: Slice): (r: Option<(u64, Slice)>)
    ensures r.Some? ==> |r.value.1| == |s| - 8
  {
    Widths();
    Read(s, 8)
  }

  function ReadU32(s: Slice): (r: Option<(nat, Slice)>)
    ensures r.Some? ==> |r.value.1| == |s| - 4
  {
    Read(s, 4)
  }

  /** `read_u64`, as the loop that assembles it. */
  method ReadU64Loop(s: Slice) returns (r: Option<(u64, Slice)>)
    ensures r == ReadU64(s)
  {
    if |s| < 8 {
      return None;
    }
    Widths();
    var v, scale := 0, 1;
    assert s[..8][0..] == s[..8];
    for i := 0 to 8
      invariant v + scale * DecLe(s[..8][i..]) == DecLe(s[..8])
    {
      assert s[..8][i..][1..] == s[..8][i + 1..];
      var d := DecLe(s[..8][i + 1..]);
      assert scale * (s[i] + 256 * d) == scale * s[i] + scale * 256 * d;
      v := v + scale * s[i];
      scale := scale * 256;
    }
    assert v == DecLe(s[..8]);
    DecLeBound(s[..8]);
    r := Some((v, s[8..]));
  }

  /** `append_u64`, as the loop that takes it apart. */
  method AppendU64(out: Frames.Buf, v: u64)
    modifies out
    ensures out.data == old(out.data) + EncLe(v, 8)
  {
    ghost var goal := out.data + EncLe(v, 8);
    var rest: nat := v;
    for i := 0 to 8
      invariant out.data + EncLe(rest, 8 - i) == goal
    {
      Frames.Put(out, [rest % 256], EncLe(rest / 256, 7 - i), goal);
      rest := rest / 256;
    }
  }

  // ----- fields -----

  function Field(s: Slice): Slice {
    EncLe(|s|, 4) + s
  }

  /** `read_len_prefixed`. */
  function ReadField(s: Slice): (r: Option<(Slice, Slice)>)
    ensures r.Some? ==> |r.value.1| < |s|
  {
    match ReadU32(s)
    case None => None
    case Some((n, rest)) => if n > MAX_FIELD || |rest| < n then None else Some((rest[..n], rest[n..]))
  }

  lemma {:induction false} FieldBack(f: Slice, rest: Slice)
    requires |f| <= MAX_FIELD
    ensures ReadField(Field(f) + rest) == Some((f, rest))
  {
    Widths();
    Frames.Assoc(EncLe(|f|, 4), f, rest);
    ReadBack(|f|, 4, f + rest);
    assert (f + rest)[..|f|] == f && (f + rest)[|f|..] == rest;
  }

  // ----- runs of 64-bit words -----

  function EncWords(ws: seq<u64>): (s: Slice)
    ensures |s| == 8 * |ws|
  {
    if ws == [] then [] else EncLe(ws[0], 8) + EncWords(ws[1..])
  }

  function ReadWords(s: Slice, n: nat): (r: Option<(seq<u64>, Slice)>)
    ensures r.Some? ==> |r.value.0| == n && |r.value.1| == |s| - 8 * n
    decreases n
  {
    if n == 0 then Some(([], s))
    else
      match ReadU64(s)
      case None => None
      case Some((w, rest)) =>
        match ReadWords(rest, n - 1)
        case None => None
        case Some((ws, rest')) => Some(([w] + ws, rest'))
  }

  lemma {:induction false} WordsBack(ws: seq<u64>, rest: Slice)
    ensures ReadWords(EncWords(ws) + rest, |ws|) == Some((ws, rest))
  {
    if ws == [] {
      assert EncWords(ws) + rest == rest;
    } else {
      Widths();
      Frames.Assoc(EncLe(ws[0], 8), EncWords(ws[1..]), rest);
      ReadBack(ws[0], 8, EncWords(ws[1..]) + rest);
      WordsBack(ws[1..], rest);
      assert [ws[0]] + ws[1..] == ws;
    }
  }

  function Skip(s: Slice, n: nat): Option<Slice> {
    if |s| < n then None else Some(s[n..])
  }

  // ----- slot states -----

  datatype Timed = Timed(x: u64, t: u64)

  datatype BarFields = BarFields(open: u64, high: u64, low: u64, count: nat, cap: nat, window: u64, start: u64, last: u64)

  /** What a slot is to its form: a ring is its contents, oldest first. */
  datatype SlotState =
    | Empty
    | BytesState(data: Slice)
    | Number(bits: u64)
    | CountRing(cap: nat, values: seq<u64>, sum: u64)
    | TimeRing(window: u64, samples: seq<Timed>, sum: u64)
    | BarState(timed: bool, bar: BarFields)
    | ClockState

  datatype Entry = Entry(op: Slice, subject: Slice, state: SlotState)

  function Interleave(ss: seq<Timed>): (ws: seq<u64>)
    ensures |ws| == 2 * |ss|
  {
    if ss == [] then [] else [ss[0].x, ss[0].t] + Interleave(ss[1..])
  }

  function Pair(ws: seq<u64>): (ss: seq<Timed>)
    requires |ws| % 2 == 0
    ensures 2 * |ss| == |ws|
  {
    if ws == [] then [] else [Timed(ws[0], ws[1])] + Pair(ws[2..])
  }

  lemma {:induction false} PairInterleave(ss: seq<Timed>)
    ensures Pair(Interleave(ss)) == ss
  {
    if ss != [] {
      PairInterleave(ss[1..]);
      assert Interleave(ss)[2..] == Interleave(ss[1..]);
      assert [ss[0]] + ss[1..] == ss;
    }
  }

  /** `ring_sum` as the loader recomputes it, with the machine's addition. */
  function SumOf(add: (u64, u64) -> u64, ss: seq<Timed>): u64 {
    if ss == [] then 0 else add(SumOf(add, ss[..|ss| - 1]), ss[|ss| - 1].x)
  }

  /** The sums after each sample, from 0 on. */
  predicate RunningSums(add: (u64, u64) -> u64, ss: seq<Timed>, p: seq<u64>) {
    |p| == |ss| + 1 && p[0] == 0 && forall i :: 0 <= i < |ss| ==> p[i + 1] == add(p[i], ss[i].x)
  }

  /** `sum` is what adding up the samples one after the other comes to. */
  ghost predicate AddsUp(add: (u64, u64) -> u64, ss: seq<Timed>, sum: u64) {
    exists p :: RunningSums(add, ss, p) && p[|ss|] == sum
  }

  lemma {:induction false} RunningSumsEnd(add: (u64, u64) -> u64, ss: seq<Timed>, p: seq<u64>)
    requires RunningSums(add, ss, p)
    ensures p[|ss|] == SumOf(add, ss)
  {
    if ss != [] {
      var n := |ss| - 1;
      RunningSumsEnd(add, ss[..n], p[..n + 1]);
    }
  }

  lemma {:induction false} SumAddsUp(add: (u64, u64) -> u64, ss: seq<Timed>)
    ensures AddsUp(add, ss, SumOf(add, ss))
  {
    if ss == [] {
      assert RunningSums(add, ss, [0]);
    } else {
      var n := |ss| - 1;
      SumAddsUp(add, ss[..n]);
      var p :| RunningSums(add, ss[..n], p) && p[n] == SumOf(add, ss[..n]);
      assert RunningSums(add, ss, p + [add(p[n], ss[n].x)]);
    }
  }

  function Zeros(n: nat): (z: seq<u64>)
    ensures |z| == n
  {
    seq(n, i => 0)
  }

  function BarWords(b: BarFields, timed: bool): Slice {
    EncWords([b.open, b.high, b.low]) + (EncLe(b.count, 4) + (EncLe(b.cap, 4) +
      EncWords([if timed then b.window else 0, b.start, b.last])))
  }

  /** What `append_rule_state` writes for a slot that is not a clock. */
  function EncState(st: SlotState): Slice
    requires st.CountRing? ==> |st.values| <= st.cap
  {
    match st
    case Empty => [0]
    case BytesState(data) => [1] + Field(data)
    case Number(bits) => [2] + EncLe(bits, 8)
    case CountRing(cap, values, sum) =>
      [3] + (EncLe(cap, 4) + (EncLe(|values|, 8) + (EncLe(sum, 8) +
        (EncWords(values + Zeros(cap - |values|)) + (EncLe(0, 4) + EncLe(0, 4))))))
    case BarState(timed, bar) => [4] + BarWords(bar, timed)
    case TimeRing(window, samples, sum) =>
      [5] + (EncLe(window, 8) + (EncLe(|samples|, 4) + EncWords(Interleave(samples))))
    case ClockState => []
  }

  /** The states `append_rule_state` can write at all. */
  predicate Writable(st: SlotState) {
    match st
    case BytesState(data) => |data| <= MAX_FIELD
    case CountRing(cap, values, _) => cap < U32 && |values| <= cap
    case TimeRing(_, samples, _) => |samples| < U32
    case BarState(_, bar) => bar.count < U32 && bar.cap < U32
    case _ => true
  }

  /** The part of `load_rule_state` that follows the key. */
  function ReadState(add: (u64, u64) -> u64, s: Slice): (r: Option<(SlotState, Slice)>)
    ensures r.Some? ==> |r.value.1| < |s|
  {
    if s == [] then None
    else
      var rest := s[1..];
      if s[0] == 0 then Some((Empty, rest))
      else if s[0] == 1 then
        (match ReadField(rest)
         case None => None
         case Some((data, rest')) => Some((BytesState(data), rest')))
      else if s[0] == 2 then
        (match ReadU64(rest)
         case None => None
         case Some((bits, rest')) => Some((Number(bits), rest')))
      else if s[0] == 3 then ReadCountRing(rest)
      else if s[0] == 4 then ReadBar(rest)
      else if s[0] == 5 then ReadTimeRing(add, rest)
      else None
  }

  function ReadCountRing(s: Slice): (r: Option<(SlotState, Slice)>)
    ensures r.Some? ==> |r.value.1| < |s|
  {
    match ReadU32(s) case None => None case Some((cap, s1)) =>
    match ReadU64(s1) case None => None case Some((len, s2)) =>
    match ReadU64(s2) case None => None case Some((sum, s3)) =>
    if cap > MAX_FIELD / 8 || len > cap then None else
    match ReadWords(s3, cap) case None => None case Some((ws, s4)) =>
    match SkipCounted(s4) case None => None case Some(s5) =>
    match SkipCounted(s5) case None => None case Some(s6) =>
    Some((CountRing(cap, ws[..len], sum), s6))
  }

  /** A count and that many words, ignored: fields of an older format. */
  function SkipCounted(s: Slice): (r: Option<Slice>)
    ensures r.Some? ==> |r.value| < |s|
  {
    match ReadU32(s)
    case None => None
    case Some((n, rest)) => Skip(rest, n * 8)
  }

  function ReadBar(s: Slice): (r: Option<(SlotState, Slice)>)
    ensures r.Some? ==> |r.value.1| < |s|
  {
    match ReadWords(s, 3) case None => None case Some((ohl, s1)) =>
    match ReadU32(s1) case None => None case Some((count, s2)) =>
    match ReadU32(s2) case None => None case Some((cap, s3)) =>
    match ReadWords(s3, 3) case None => None case Some((wsl, s4)) =>
    Some((BarState(wsl[0] != 0, BarFields(ohl[0], ohl[1], ohl[2], count, cap, wsl[0], wsl[1], wsl[2])), s4))
  }

  function ReadTimeRing(add: (u64, u64) -> u64, s: Slice): (r: Option<(SlotState, Slice)>)
    ensures r.Some? ==> |r.value.1| < |s|
  {
    match ReadU64(s) case None => None case Some((window, s1)) =>
    match ReadU32(s1) case None => None case Some((n, s2)) =>
    match ReadWords(s2, 2 * n) case None => None case Some((ws, s3)) =>
    Some((TimeRing(window, Pair(ws), SumOf(add, Pair(ws))), s3))
  }

  /** `skip_rule_state`, from the variant byte on. */
  function SkipState(s: Slice): Option<Slice> {
    if s == [] then None
    else
      var rest := s[1..];
      if s[0] == 0 then Some(rest)
      else if s[0] == 1 then
        (match ReadField(rest) case None => None case Some((_, rest')) => Some(rest'))
      else if s[0] == 2 then Skip(rest, 8)
      else if s[0] == 3 then SkipCountRing(rest)
      else if s[0] == 4 then Skip(rest, 8 + 8 + 8 + 4 + 4 + 8 + 8 + 8)
      else if s[0] == 5 then SkipTimeRing(rest)
      else None
  }

  function SkipCountRing(s: Slice): Option<Slice> {
    match ReadU32(s) case None => None case Some((cap, s1)) =>
    if cap > MAX_FIELD / 8 then None else
    match Skip(s1, 8 + 8 + cap * 8) case None => None case Some(s2) =>
    match SkipChecked(s2) case None => None case Some(s3) =>
    SkipChecked(s3)
  }

  function SkipChecked(s: Slice): Option<Slice> {
    match ReadU32(s)
    case None => None
    case Some((n, rest)) => if n > MAX_FIELD / 8 then None else Skip(rest, n * 8)
  }

  function SkipTimeRing(s: Slice): Option<Slice> {
    match Skip(s, 8) case None => None case Some(s1) =>
    match ReadU32(s1) case None => None case Some((n, s2)) =>
    if n > MAX_FIELD / 16 then None else Skip(s2, n * 16)
  }

  // ----- a state survives the round trip -----

  /** The loader's own limit: the writer knows no bound on the capacity of a count ring but the 32 bits it is written in. */
  predicate Loadable(st: SlotState) {
    st.CountRing? ==> st.cap <= MAX_FIELD / 8
  }

  /**
   A slot after the round trip. The sum of a time ring is not written but added up anew, and whether
   a bar is a time bar is told by its window.
   */
  function Reloaded(add: (u64, u64) -> u64, st: SlotState): SlotState {
    match st
    case TimeRing(window, samples, _) => TimeRing(window, samples, SumOf(add, samples))
    case BarState(timed, bar) =>
      var window: u64 := if timed then bar.window else 0;
      BarState(window != 0, bar.(window := window))
    case _ => st
  }

  /** It is the slot that was saved exactly when its running sum has not drifted and its bar kind agrees with its window. */
  lemma {:induction false} ReloadedSame(add: (u64, u64) -> u64, st: SlotState)
    ensures Reloaded(add, st) == st <==>
      (st.TimeRing? ==> st.sum == SumOf(add, st.samples)) && (st.BarState? ==> (st.timed <==> st.bar.window != 0))
  {
    if st.BarState? {
      assert st.bar.(window := st.bar.window) == st.bar;
    }
  }

  lemma {:induction false} SkipZeros(rest: Slice)
    ensures SkipCounted(EncLe(0, 4) + rest) == Some(rest) && SkipChecked(EncLe(0, 4) + rest) == Some(rest)
  {
    Widths();
    ReadBack(0, 4, rest);
  }

  lemma {:induction false} U32Back(v: nat, rest: Slice)
    requires v < U32
    ensures ReadU32(EncLe(v, 4) + rest) == Some((v, rest))
  {
    Widths();
    ReadBack(v, 4, rest);
  }

  lemma {:induction false} U64Back(v: u64, rest: Slice)
    ensures ReadU64(EncLe(v, 8) + rest) == Some((v, rest))
  {
    Widths();
    ReadBack(v, 8, rest);
  }

  /** The count-ring reader, given what each of its reads returns. */
  lemma {:induction false} CountRingChain(s: Slice, cap: nat, s1: Slice, len: u64, s2: Slice, sum: u64, s3: Slice, ws: seq<u64>, s4: Slice, s5: Slice, s6: Slice)
    requires ReadU32(s) == Some((cap, s1)) && ReadU64(s1) == Some((len, s2)) && ReadU64(s2) == Some((sum, s3))
    requires ReadWords(s3, cap) == Some((ws, s4)) && SkipCounted(s4) == Some(s5) && SkipCounted(s5) == Some(s6)
    requires len <= cap
    ensures ReadCountRing(s) == if cap > MAX_FIELD / 8 then None else Some((CountRing(cap, ws[..len], sum), s6))
  {
  }

  /** The words of a count ring: its values, then zeros up to the capacity. */
  function Cells(st: SlotState): seq<u64>
    requires st.CountRing? && |st.values| <= st.cap
  {
    st.values + Zeros(st.cap - |st.values|)
  }

  /** What follows the variant byte of a count ring. */
  function CountBody(st: SlotState, rest: Slice): Slice
    requires st.CountRing? && |st.values| <= st.cap
  {
    EncLe(st.cap, 4) + (EncLe(|st.values|, 8) + (EncLe(st.sum, 8) + (EncWords(Cells(st)) + (EncLe(0, 4) + (EncLe(0, 4) + rest)))))
  }

  lemma {:induction false} CountRingBytes(st: SlotState, rest: Slice)
    requires st.CountRing? && Writable(st)
    ensures EncState(st) + rest == [3] + CountBody(st, rest)
    ensures (EncState(st) + rest)[1..] == CountBody(st, rest)
  {
    var ws, z := Cells(st), EncLe(0, 4);
    var t3 := EncWords(ws) + (z + z);
    var t2 := EncLe(st.sum, 8) + t3;
    var t1 := EncLe(|st.values|, 8) + t2;
    Frames.Assoc([3], EncLe(st.cap, 4) + t1, rest);
    Frames.Assoc(EncLe(st.cap, 4), t1, rest);
    Frames.Assoc(EncLe(|st.values|, 8), t2, rest);
    Frames.Assoc(EncLe(st.sum, 8), t3, rest);
    Frames.Assoc(EncWords(ws), z + z, rest);
    Frames.Assoc(z, z, rest);
  }

  lemma {:induction false} CountRingBack(st: SlotState, rest: Slice)
    requires st.CountRing? && Writable(st)
    ensures ReadCountRing(CountBody(st, rest)) == if Loadable(st) then Some((st, rest)) else None
  {
    var ws, z := Cells(st), EncLe(0, 4);
    var s4 := z + (z + rest);
    var s3 := EncWords(ws) + s4;
    var s2 := EncLe(st.sum, 8) + s3;
    var s1 := EncLe(|st.values|, 8) + s2;
    U32Back(st.cap, s1);
    U64Back(|st.values|, s2);
    U64Back(st.sum, s3);
    WordsBack(ws, s4);
    SkipZeros(z + rest);
    SkipZeros(rest);
    CountRingChain(CountBody(st, rest), st.cap, s1, |st.values|, s2, st.sum, s3, ws, s4, z + rest, rest);
    assert ws[..|st.values|] == st.values;
  }

  lemma {:induction false} CountRingSkip(st: SlotState, rest: Slice)
    requires st.CountRing? && Writable(st)
    ensures SkipCountRing(CountBody(st, rest)) == if Loadable(st) then Some(rest) else None
  {
    var ws, z := Cells(st), EncLe(0, 4);
    var s4 := z + (z + rest);
    U32Back(st.cap, EncLe(|st.values|, 8) + (EncLe(st.sum, 8) + (EncWords(ws) + s4)));
    SkipOver(EncLe(|st.values|, 8), EncLe(st.sum, 8), EncWords(ws), s4);
    SkipZeros(z + rest);
    SkipZeros(rest);
  }

  lemma {:induction false} SkipOver(a: Slice, b: Slice, c: Slice, rest: Slice)
    ensures Skip(a + (b + (c + rest)), |a| + |b| + |c|) == Some(rest)
  {
    var s := a + (b + (c + rest));
    assert s[|a| + |b| + |c|..] == rest;
  }

  lemma {:induction false} BarBytes(b: BarFields, timed: bool, rest: Slice)
    ensures BarWords(b, timed) + rest ==
      EncWords([b.open, b.high, b.low]) + (EncLe(b.count, 4) + (EncLe(b.cap, 4) +
        (EncWords([if timed then b.window else 0, b.start, b.last]) + rest)))
    ensures |BarWords(b, timed)| == 56
  {
    var w0, w1 := EncWords([b.open, b.high, b.low]), EncWords([if timed then b.window else 0, b.start, b.last]);
    Frames.Assoc(w0, EncLe(b.count, 4) + (EncLe(b.cap, 4) + w1), rest);
    Frames.Assoc(EncLe(b.count, 4), EncLe(b.cap, 4) + w1, rest);
    Frames.Assoc(EncLe(b.cap, 4), w1, rest);
  }

  lemma {:induction false} BarBack(b: BarFields, timed: bool, rest: Slice)
    requires b.count < U32 && b.cap < U32
    ensures var w: u64 := if timed then b.window else 0;
      ReadBar(BarWords(b, timed) + rest) == Some((BarState(w != 0, b.(window := w)), rest))
    ensures Skip(BarWords(b, timed) + rest, 56) == Some(rest)
  {
    BarBytes(b, timed, rest);
    assert (BarWords(b, timed) + rest)[56..] == rest;
    var w: u64 := if timed then b.window else 0;
    var ohl: seq<u64>, wsl: seq<u64> := [b.open, b.high, b.low], [w, b.start, b.last];
    var s3 := EncWords(wsl) + rest;
    var s2 := EncLe(b.cap, 4) + s3;
    var s1 := EncLe(b.count, 4) + s2;
    WordsBack(ohl, s1);
    U32Back(b.count, s2);
    U32Back(b.cap, s3);
    WordsBack(wsl, rest);
  }

  lemma {:induction false} TimeRingChain(add: (u64, u64) -> u64, s: Slice, window: u64, s1: Slice, n: nat, s2: Slice, ws: seq<u64>, s3: Slice)
    requires ReadU64(s) == Some((window, s1)) && ReadU32(s1) == Some((n, s2)) && ReadWords(s2, 2 * n) == Some((ws, s3))
    ensures ReadTimeRing(add, s) == Some((TimeRing(window, Pair(ws), SumOf(add, Pair(ws))), s3))
  {
  }

  /** What follows the variant byte of a time ring. */
  function TimeBody(st: SlotState, rest: Slice): Slice
    requires st.TimeRing?
  {
    EncLe(st.window, 8) + (EncLe(|st.samples|, 4) + (EncWords(Interleave(st.samples)) + rest))
  }

  lemma {:induction false} TimeRingBytes(st: SlotState, rest: Slice)
    requires st.TimeRing?
    ensures EncState(st) + rest == [5] + TimeBody(st, rest)
  {
    var ws := Interleave(st.samples);
    Frames.Assoc([5], EncLe(st.window, 8) + (EncLe(|st.samples|, 4) + EncWords(ws)), rest);
    Frames.Assoc(EncLe(st.window, 8), EncLe(|st.samples|, 4) + EncWords(ws), rest);
    Frames.Assoc(EncLe(|st.samples|, 4), EncWords(ws), rest);
  }

  lemma {:induction false} TimeRingBack(add: (u64, u64) -> u64, st: SlotState, rest: Slice)
    requires st.TimeRing? && Writable(st)
    ensures ReadTimeRing(add, TimeBody(st, rest)) == Some((Reloaded(add, st), rest))
  {
    var ws := Interleave(st.samples);
    var s2 := EncWords(ws) + rest;
    var s1 := EncLe(|st.samples|, 4) + s2;
    U64Back(st.window, s1);
    U32Back(|st.samples|, s2);
    WordsBack(ws, rest);
    PairInterleave(st.samples);
    TimeRingChain(add, TimeBody(st, rest), st.window, s1, |st.samples|, s2, ws, rest);
  }

  lemma {:induction false} TimeRingSkip(st: SlotState, rest: Slice)
    requires st.TimeRing? && Writable(st)
    ensures SkipTimeRing(TimeBody(st, rest)) == if |st.samples| <= MAX_FIELD / 16 then Some(rest) else None
  {
    var ws := Interleave(st.samples);
    var s2 := EncWords(ws) + rest;
    var s1 := EncLe(|st.samples|, 4) + s2;
    assert Skip(TimeBody(st, rest), 8) == Some(s1);
    U32Back(|st.samples|, s2);
    assert s2[16 * |st.samples|..] == rest;
  }

  lemma {:induction false} SmallBack(add: (u64, u64) -> u64, st: SlotState, rest: Slice)
    requires (st.Empty? || st.BytesState? || st.Number?) && Writable(st)
    ensures ReadState(add, EncState(st) + rest) == Some((st, rest)) && SkipState(EncState(st) + rest) == Some(rest)
  {
    match st
    case Empty => assert ([0] + rest)[1..] == rest;
    case BytesState(data) =>
      Frames.Assoc([1], Field(data), rest);
      assert ([1] + (Field(data) + rest))[1..] == Field(data) + rest;
      FieldBack(data, rest);
    case Number(bits) =>
      Frames.Assoc([2], EncLe(bits, 8), rest);
      assert ([2] + (EncLe(bits, 8) + rest))[1..] == EncLe(bits, 8) + rest;
      U64Back(bits, rest);
  }

  lemma {:induction false} ReadVariant(add: (u64, u64) -> u64, k: byte, body: Slice)
    ensures k == 3 ==> ReadState(add, [k] + body) == ReadCountRing(body)
    ensures k == 4 ==> ReadState(add, [k] + body) == ReadBar(body)
    ensures k == 5 ==> ReadState(add, [k] + body) == ReadTimeRing(add, body)
  {
    assert ([k] + body)[1..] == body;
  }

  lemma {:induction false} SkipVariant(k: byte, body: Slice)
    ensures k == 3 ==> SkipState([k] + body) == SkipCountRing(body)
    ensures k == 4 ==> SkipState([k] + body) == Skip(body, 56)
    ensures k == 5 ==> SkipState([k] + body) == SkipTimeRing(body)
  {
    assert ([k] + body)[1..] == body;
  }

  lemma {:induction false} CountRingTrip(add: (u64, u64) -> u64, st: SlotState, rest: Slice)
    requires Writable(st) && st.CountRing?
    ensures ReadState(add, EncState(st) + rest) == if Loadable(st) then Some((st, rest)) else None
  {
    CountRingBytes(st, rest);
    ReadVariant(add, 3, CountBody(st, rest));
    CountRingBack(st, rest);
  }

  lemma {:induction false} BarTrip(add: (u64, u64) -> u64, st: SlotState, rest: Slice)
    requires Writable(st) && st.BarState?
    ensures ReadState(add, EncState(st) + rest) == Some((Reloaded(add, st), rest))
  {
    var words := BarWords(st.bar, st.timed);
    Frames.Assoc([4], words, rest);
    ReadVariant(add, 4, words + rest);
    BarBack(st.bar, st.timed, rest);
  }

  lemma {:induction false} TimeRingTrip(add: (u64, u64) -> u64, st: SlotState, rest: Slice)
    requires Writable(st) && st.TimeRing?
    ensures ReadState(add, EncState(st) + rest) == Some((Reloaded(add, st), rest))
  {
    TimeRingBytes(st, rest);
    ReadVariant(add, 5, TimeBody(st, rest));
    TimeRingBack(add, st, rest);
  }

  /**
   A written state reads back, with the bytes after it untouched; the one state the writer accepts
   and the loader does not is a count ring whose cells exceed the field cap.
   */
  lemma {:induction false} StateRoundTrip(add: (u64, u64) -> u64, st: SlotState, rest: Slice)
    requires Writable(st) && !st.ClockState?
    ensures ReadState(add, EncState(st) + rest) == if Loadable(st) then Some((Reloaded(add, st), rest)) else None
  {
    match st
    case CountRing(_, _, _) => CountRingTrip(add, st, rest);
    case TimeRing(_, _, _) => TimeRingTrip(add, st, rest);
    case BarState(_, _) => BarTrip(add, st, rest);
    case _ => SmallBack(add, st, rest);
  }

  /** The sum of a time ring that was read back is the last of the running sums of its samples. */
  lemma {:induction false} LoadedSum(add: (u64, u64) -> u64, st: SlotState, rest: Slice, p: seq<u64>)
    requires Writable(st) && st.TimeRing? && RunningSums(add, st.samples, p)
    ensures var r := ReadState(add, EncState(st) + rest);
      r.Some? && r.value.0 == TimeRing(st.window, st.samples, p[|st.samples|]) && r.value.1 == rest
  {
    StateRoundTrip(add, st, rest);
    RunningSumsEnd(add, st.samples, p);
  }

  /** The skipper's caps, which it checks and the loader does not for time rings. */
  predicate Skippable(st: SlotState) {
    Loadable(st) && (st.TimeRing? ==> |st.samples| <= MAX_FIELD / 16)
  }

  lemma {:induction false} SkipAgreesRing(st: SlotState, rest: Slice)
    requires Writable(st) && st.CountRing?
    ensures SkipState(EncState(st) + rest) == if Loadable(st) then Some(rest) else None
  {
    CountRingBytes(st, rest);
    SkipVariant(3, CountBody(st, rest));
    CountRingSkip(st, rest);
  }

  lemma {:induction false} SkipAgreesTime(st: SlotState, rest: Slice)
    requires Writable(st) && st.TimeRing?
    ensures SkipState(EncState(st) + rest) == if |st.samples| <= MAX_FIELD / 16 then Some(rest) else None
  {
    TimeRingBytes(st, rest);
    SkipVariant(5, TimeBody(st, rest));
    TimeRingSkip(st, rest);
  }

  lemma {:induction false} SkipAgreesBar(st: SlotState, rest: Slice)
    requires Writable(st) && st.BarState?
    ensures SkipState(EncState(st) + rest) == Some(rest)
  {
    var words := BarWords(st.bar, st.timed);
    Frames.Assoc([4], words, rest);
    SkipVariant(4, words + rest);
    BarBack(st.bar, st.timed, rest);
  }

  /** `skip_rule_state` moves past exactly what the loader reads, and succeeds exactly within the field caps. */
  lemma {:induction false} SkipAgrees(add: (u64, u64) -> u64, st: SlotState, rest: Slice)
    requires Writable(st) && !st.ClockState?
    ensures SkipState(EncState(st) + rest) == if Skippable(st) then Some(rest) else None
  {
    match st
    case CountRing(_, _, _) => SkipAgreesRing(st, rest);
    case TimeRing(_, _, _) => SkipAgreesTime(st, rest);
    case BarState(_, _) => SkipAgreesBar(st, rest);
    case _ => SmallBack(add, st, rest);
  }

  // ----- records -----

  const LVC_KIND: byte := 1
  const STATE_KIND: byte := 2

  function Key(op: Slice, subject: Slice): Slice {
    op + ([COLON] + subject)
  }

  /** `split_key`: at the first colon. */
  function SplitKey(key: Slice): Option<(Slice, Slice)> {
    if key == [] then None
    else if key[0] == COLON then Some(([], key[1..]))
    else
      match SplitKey(key[1..])
      case None => None
      case Some((op, subject)) => Some(([key[0]] + op, subject))
  }

  lemma {:induction false} SplitKeyBack(op: Slice, subject: Slice)
    requires COLON !in op
    ensures SplitKey(Key(op, subject)) == Some((op, subject))
  {
    if op == [] {
      assert Key(op, subject) == [COLON] + subject;
    } else {
      assert Key(op, subject)[1..] == Key(op[1..], subject);
      SplitKeyBack(op[1..], subject);
      assert [op[0]] + op[1..] == op;
    }
  }

  datatype Record = LvcRecord(subject: Slice, payload: Slice) | StateRecord(rule: nat, filter: Slice, entry: Entry)

  /** What the writer can write. */
  predicate RecordWritable(r: Record) {
    match r
    case LvcRecord(subject, payload) => |subject| <= MAX_FIELD && |payload| <= MAX_FIELD
    case StateRecord(rule, filter, e) =>
      rule < U32 && |filter| <= MAX_FIELD && |Key(e.op, e.subject)| <= MAX_FIELD && Writable(e.state) && !e.state.ClockState?
  }

  function EncRecord(r: Record): Slice
    requires RecordWritable(r)
  {
    match r
    case LvcRecord(subject, payload) => [LVC_KIND] + (Field(subject) + Field(payload))
    case StateRecord(rule, filter, e) =>
      [STATE_KIND] + (EncLe(rule, 4) + (Field(filter) + (Field(Key(e.op, e.subject)) + EncState(e.state))))
  }

  /** `load_rule_state`, as far as reading goes. */
  datatype RuleRecord = RuleRecord(rule: nat, filter: Slice, key: Slice, state: SlotState)

  function ReadRule(add: (u64, u64) -> u64, s: Slice): (r: Option<(RuleRecord, Slice)>)
    ensures r.Some? ==> |r.value.1| < |s|
  {
    match ReadU32(s) case None => None case Some((rule, s1)) =>
    match ReadField(s1) case None => None case Some((filter, s2)) =>
    match ReadField(s2) case None => None case Some((key, s3)) =>
    match ReadState(add, s3) case None => None case Some((state, s4)) =>
    Some((RuleRecord(rule, filter, key, state), s4))
  }

  function ReadLvc(s: Slice): (r: Option<(LastValues.Store, Slice)>)
    ensures r.Some? ==> |r.value.1| < |s|
  {
    match ReadField(s) case None => None case Some((subject, s1)) =>
    match ReadField(s1) case None => None case Some((payload, s2)) =>
    Some((LastValues.Store(subject, payload), s2))
  }

  lemma {:induction false} LvcBack(subject: Slice, payload: Slice, rest: Slice)
    requires |subject| <= MAX_FIELD && |payload| <= MAX_FIELD
    ensures ReadLvc((Field(subject) + Field(payload)) + rest) == Some((LastValues.Store(subject, payload), rest))
  {
    Frames.Assoc(Field(subject), Field(payload), rest);
    FieldBack(subject, Field(payload) + rest);
    FieldBack(payload, rest);
  }

  lemma {:induction false} RuleChain(add: (u64, u64) -> u64, s: Slice, rule: nat, s1: Slice, filter: Slice, s2: Slice, key: Slice, s3: Slice, st: SlotState, s4: Slice)
    requires ReadU32(s) == Some((rule, s1)) && ReadField(s1) == Some((filter, s2)) && ReadField(s2) == Some((key, s3))
    requires ReadState(add, s3) == Some((st, s4))
    ensures ReadRule(add, s) == Some((RuleRecord(rule, filter, key, st), s4))
  {
  }

  lemma {:induction false} RuleRefused(add: (u64, u64) -> u64, s: Slice, rule: nat, s1: Slice, filter: Slice, s2: Slice, key: Slice, s3: Slice)
    requires ReadU32(s) == Some((rule, s1)) && ReadField(s1) == Some((filter, s2)) && ReadField(s2) == Some((key, s3))
    requires ReadState(add, s3) == None
    ensures ReadRule(add, s) == None
  {
  }

  /** `skip_rule_state`: a whole record, without keeping anything. */
  function SkipRule(s: Slice): Option<Slice> {
    match ReadU32(s) case None => None case Some((_, s1)) =>
    match ReadField(s1) case None => None case Some((_, s2)) =>
    match ReadField(s2) case None => None case Some((_, s3)) =>
    SkipState(s3)
  }

  lemma {:induction false} SkipChain(s: Slice, rule: nat, s1: Slice, filter: Slice, s2: Slice, key: Slice, s3: Slice)
    requires ReadU32(s) == Some((rule, s1)) && ReadField(s1) == Some((filter, s2)) && ReadField(s2) == Some((key, s3))
    ensures SkipRule(s) == SkipState(s3)
  {
  }

  /** The fields of a written rule record after its kind. */
  function RuleBody(r: Record): Slice
    requires r.StateRecord? && RecordWritable(r)
  {
    EncLe(r.rule, 4) + (Field(r.filter) + (Field(Key(r.entry.op, r.entry.subject)) + EncState(r.entry.state)))
  }

  /** A written rule record reads back, unless the loader refuses its state. */
  lemma {:induction false} RuleBack(add: (u64, u64) -> u64, r: Record, rest: Slice)
    requires r.StateRecord? && RecordWritable(r)
    ensures var e := r.entry;
      ReadRule(add, RuleBody(r) + rest) ==
      if Loadable(e.state) then Some((RuleRecord(r.rule, r.filter, Key(e.op, e.subject), Reloaded(add, e.state)), rest)) else None
    ensures SkipRule(RuleBody(r) + rest) == if Skippable(r.entry.state) then Some(rest) else None
  {
    var e := r.entry;
    var key, st := Field(Key(e.op, e.subject)), EncState(e.state);
    var s3 := st + rest;
    var s2 := key + s3;
    var s1 := Field(r.filter) + s2;
    Frames.Assoc(EncLe(r.rule, 4), Field(r.filter) + (key + st), rest);
    Frames.Assoc(Field(r.filter), key + st, rest);
    Frames.Assoc(key, st, rest);
    U32Back(r.rule, s1);
    FieldBack(r.filter, s2);
    FieldBack(Key(e.op, e.subject), s3);
    StateRoundTrip(add, e.state, rest);
    SkipAgrees(add, e.state, rest);
    SkipChain(EncLe(r.rule, 4) + s1, r.rule, s1, r.filter, s2, Key(e.op, e.subject), s3);
    if Loadable(e.state) {
      RuleChain(add, EncLe(r.rule, 4) + s1, r.rule, s1, r.filter, s2, Key(e.op, e.subject), s3, Reloaded(add, e.state), rest);
    } else {
      RuleRefused(add, EncLe(r.rule, 4) + s1, r.rule, s1, r.filter, s2, Key(e.op, e.subject), s3);
    }
  }

  /**
   `skip_rule_state` on a whole written record, against the loader: where both get past it they stop
   at the same byte, and they differ exactly on a time ring longer than the field cap, which only the
   loader takes.
   */
  lemma {:induction false} SkipRuleAgrees(add: (u64, u64) -> u64, r: Record, rest: Slice)
    requires r.StateRecord? && RecordWritable(r)
    ensures var read, skip := ReadRule(add, RuleBody(r) + rest), SkipRule(RuleBody(r) + rest);
      (skip.Some? ==> read.Some? && skip.value == read.value.1) &&
      (read.Some? && skip.None? <==> r.entry.state.TimeRing? && |r.entry.state.samples| > MAX_FIELD / 16)
  {
    RuleBack(add, r, rest);
  }

  /** A time ring with one sample more than the skipper takes. */
  lemma {:induction false} LongRingExample(add: (u64, u64) -> u64, rest: Slice)
    ensures var r := StateRecord(0, [GT], Entry([], [], TimeRing(1, seq(MAX_FIELD / 16 + 1, _ => Timed(0, 0)), 0)));
      RecordWritable(r) && ReadRule(add, RuleBody(r) + rest).Some? && SkipRule(RuleBody(r) + rest).None?
  {
    var r := StateRecord(0, [GT], Entry([], [], TimeRing(1, seq(MAX_FIELD / 16 + 1, _ => Timed(0, 0)), 0)));
    SkipRuleAgrees(add, r, rest);
  }

  // ----- the loader -----

  /** What is being loaded into: the cache, and the slots of each rule. */
  datatype Loaded = Loaded(cache: LastValues.Cache, rules: seq<seq<Entry>>)

  /** The program and cache configuration a snapshot is loaded into. */
  datatype Target = Target(config: LastValues.Config, filters: seq<Slice>, add: (u64, u64) -> u64)

  /** `append_state`: only a rule with that number and that very filter takes the slot. */
  function AddSlot(t: Target, rules: seq<seq<Entry>>, r: RuleRecord): seq<seq<Entry>>
    requires |rules| == |t.filters|
  {
    if r.rule < |t.filters| && t.filters[r.rule] == r.filter && SplitKey(r.key).Some? then
      var (op, subject) := SplitKey(r.key).value;
      rules[r.rule := rules[r.rule] + [Entry(op, subject, r.state)]]
    else rules
  }

  ghost predicate Sound(t: Target, l: Loaded) {
    LastValues.Bounded(l.cache) && |l.rules| == |t.filters|
  }

  /** The record loop of `mb_snapshot_load`, from the byte after the header. */
  ghost function Load(t: Target, rest: Slice, l: Loaded): (r: Option<Loaded>)
    requires Sound(t, l)
    decreases |rest|
  {
    if rest == [] then Some(l)
    else if rest[0] == LVC_KIND then
      (match ReadLvc(rest[1..])
       case None => None
       case Some((store, rest')) =>
         if LastValues.Cached(t.config, store.subject) && !LastValues.Accepted(t.config, l.cache, store.subject, store.payload) then None
         else Load(t, rest', l.(cache := LastValues.Stored(t.config, l.cache, store.subject, store.payload))))
    else if rest[0] == STATE_KIND then
      (match ReadRule(t.add, rest[1..])
       case None => None
       case Some((r, rest')) => Load(t, rest', l.(rules := AddSlot(t, l.rules, r))))
    else None
  }

  /** What one written record does to the loader. */
  ghost function Effect(t: Target, l: Loaded, r: Record): (l': Loaded)
    requires Sound(t, l)
    ensures Sound(t, l')
  {
    match r
    case LvcRecord(subject, payload) => l.(cache := LastValues.Stored(t.config, l.cache, subject, payload))
    case StateRecord(rule, filter, e) => l.(rules := AddSlot(t, l.rules, RuleRecord(rule, filter, Key(e.op, e.subject), Reloaded(t.add, e.state))))
  }

  /** A written record that means the same to the loader, if the loader takes it at all. */
  ghost predicate Taken(t: Target, l: Loaded, r: Record)
    requires Sound(t, l)
  {
    RecordWritable(r) && (r.LvcRecord? ==> LastValues.Accepted(t.config, l.cache, r.subject, r.payload))
  }

  predicate RecordLoads(r: Record) {
    r.StateRecord? ==> Loadable(r.entry.state)
  }

  lemma {:induction false} LoadRecord(t: Target, l: Loaded, r: Record, rest: Slice)
    requires Sound(t, l) && Taken(t, l, r)
    ensures Load(t, EncRecord(r) + rest, l) == if RecordLoads(r) then Load(t, rest, Effect(t, l, r)) else None
  {
    match r
    case LvcRecord(subject, payload) =>
      var body := Field(subject) + Field(payload);
      Frames.Assoc([LVC_KIND], body, rest);
      assert ([LVC_KIND] + (body + rest))[1..] == body + rest;
      LvcBack(subject, payload, rest);
    case StateRecord(rule, filter, e) =>
      Frames.Assoc([STATE_KIND], RuleBody(r), rest);
      assert ([STATE_KIND] + (RuleBody(r) + rest))[1..] == RuleBody(r) + rest;
      RuleBack(t.add, r, rest);
  }

  /** A record of a rule that is not there, or has another filter now, is read and leaves everything as it is. */
  lemma {:induction false} StrangerIgnored(t: Target, l: Loaded, r: Record, rest: Slice)
    requires Sound(t, l) && r.StateRecord? && RecordWritable(r) && RecordLoads(r)
    requires r.rule >= |t.filters| || t.filters[r.rule] != r.filter
    ensures Load(t, EncRecord(r) + rest, l) == Load(t, rest, l)
  {
    LoadRecord(t, l, r, rest);
  }

  predicate AllWritable(rs: seq<Record>) {
    forall i :: 0 <= i < |rs| ==> RecordWritable(rs[i])
  }

  function EncRecords(rs: seq<Record>): Slice
    requires AllWritable(rs)
  {
    if rs == [] then [] else EncRecord(rs[0]) + EncRecords(rs[1..])
  }

  lemma {:induction false} WritableParts(a: seq<Record>, b: seq<Record>)
    ensures AllWritable(a + b) <==> AllWritable(a) && AllWritable(b)
  {
    if AllWritable(a + b) {
      assert forall i :: 0 <= i < |a| ==> a[i] == (a + b)[i];
      assert forall i :: 0 <= i < |b| ==> b[i] == (a + b)[|a| + i];
    }
  }

  ghost function EffectAll(t: Target, l: Loaded, rs: seq<Record>): (l': Loaded)
    requires Sound(t, l)
    ensures Sound(t, l')
    decreases |rs|
  {
    if rs == [] then l else EffectAll(t, Effect(t, l, rs[0]), rs[1..])
  }

  ghost predicate TakenAll(t: Target, l: Loaded, rs: seq<Record>)
    requires Sound(t, l)
    decreases |rs|
  {
    rs == [] || (Taken(t, l, rs[0]) && TakenAll(t, Effect(t, l, rs[0]), rs[1..]))
  }

  lemma {:induction false} TakenWritable(t: Target, l: Loaded, rs: seq<Record>)
    requires Sound(t, l) && TakenAll(t, l, rs)
    ensures AllWritable(rs)
    decreases |rs|
  {
    if rs != [] { TakenWritable(t, Effect(t, l, rs[0]), rs[1..]); }
  }

  predicate AllLoad(rs: seq<Record>) {
    forall i :: 0 <= i < |rs| ==> RecordLoads(rs[i])
  }

  /** Written records load one after the other, up to the first one that is refused. */
  lemma {:induction false} LoadRecords(t: Target, l: Loaded, rs: seq<Record>)
    requires Sound(t, l) && TakenAll(t, l, rs)
    ensures AllWritable(rs)
    ensures Load(t, EncRecords(rs), l) == if AllLoad(rs) then Some(EffectAll(t, l, rs)) else None
    decreases |rs|
  {
    TakenWritable(t, l, rs);
    if rs != [] {
      LoadRecords(t, Effect(t, l, rs[0]), rs[1..]);
      LoadRecord(t, l, rs[0], EncRecords(rs[1..]));
      AllLoadCons(rs);
      EncRecordsCons(rs);
      EffectAllCons(t, l, rs);
    }
  }

  lemma {:induction false} AllLoadCons(rs: seq<Record>)
    requires rs != []
    ensures AllLoad(rs) <==> RecordLoads(rs[0]) && AllLoad(rs[1..])
  {
    assert rs == [rs[0]] + rs[1..];
  }

  lemma {:induction false} EncRecordsCons(rs: seq<Record>)
    requires rs != [] && AllWritable(rs)
    ensures RecordWritable(rs[0]) && AllWritable(rs[1..]) && EncRecords(rs) == EncRecord(rs[0]) + EncRecords(rs[1..])
  {
  }

  lemma {:induction false} EffectAllCons(t: Target, l: Loaded, rs: seq<Record>)
    requires Sound(t, l) && rs != []
    ensures EffectAll(t, l, rs) == EffectAll(t, Effect(t, l, rs[0]), rs[1..])
  {
  }

  // ----- the whole snapshot -----

  datatype RuleSlots = RuleSlots(filter: Slice, entries: seq<Entry>)

  function LvcRecords(m: LastValues.Cache): seq<Record>
    requires |m.subjects| == |m.payloads|
  {
    seq(|m.subjects|, i requires 0 <= i < |m.subjects| => LvcRecord(m.subjects[i], m.payloads[i]))
  }

  /** The slots that are written: all but clocks. */
  function Kept(es: seq<Entry>): seq<Entry> {
    if es == [] then [] else (if es[0].state.ClockState? then [] else [es[0]]) + Kept(es[1..])
  }

  function SlotRecords(rule: nat, filter: Slice, es: seq<Entry>): (rs: seq<Record>)
    ensures |rs| == |es|
  {
    seq(|es|, i requires 0 <= i < |es| => StateRecord(rule, filter, es[i]))
  }

  function RuleRecords(rules: seq<RuleSlots>, k: nat): seq<Record>
    requires k <= |rules|
    decreases |rules| - k
  {
    if k == |rules| then []
    else SlotRecords(k, rules[k].filter, Kept(rules[k].entries)) + RuleRecords(rules, k + 1)
  }

  function Records(m: LastValues.Cache, rules: seq<RuleSlots>): seq<Record>
    requires |m.subjects| == |m.payloads|
  {
    LvcRecords(m) + RuleRecords(rules, 0)
  }

  const HEADER: Slice := [77, 66, 76, 75, 4, 0, 0, 0]  // MBLK, version 4, padding

  /** `mb_snapshot_load` on a file that is there; a file that is not a readable snapshot is ignored. */
  ghost function LoadFile(t: Target, file: Slice, l: Loaded): Option<Loaded>
    requires Sound(t, l)
  {
    if |file| < 8 || file[..4] != HEADER[..4] || file[4] < 3 || file[4] > 4 then Some(l) else Load(t, file[8..], l)
  }

  lemma {:induction false} EffectAllAppend(t: Target, l: Loaded, a: seq<Record>, b: seq<Record>)
    requires Sound(t, l)
    ensures EffectAll(t, l, a + b) == EffectAll(t, EffectAll(t, l, a), b)
    ensures TakenAll(t, l, a + b) <==> TakenAll(t, l, a) && TakenAll(t, EffectAll(t, l, a), b)
    decreases |a|
  {
    if a == [] {
      assert a + b == b;
    } else {
      assert (a + b)[1..] == a[1..] + b;
      EffectAllAppend(t, Effect(t, l, a[0]), a[1..], b);
    }
  }

  function Prefix(m: LastValues.Cache, n: nat): LastValues.Cache
    requires n <= |m.subjects| == |m.payloads|
  {
    LastValues.Cache(m.subjects[..n], m.payloads[..n])
  }

  lemma {:induction false} PrefixSum(ps: seq<Slice>, n: nat)
    requires n <= |ps|
    ensures LastValues.SumLen(ps[..n]) <= LastValues.SumLen(ps)
  {
    if n < |ps| {
      PrefixSum(ps[..|ps| - 1], n);
      assert ps[..|ps| - 1][..n] == ps[..n];
    } else {
      assert ps[..n] == ps;
    }
  }

  lemma {:induction false} PrefixBounded(m: LastValues.Cache, n: nat)
    requires LastValues.Bounded(m) && n <= |m.subjects|
    ensures LastValues.Bounded(Prefix(m, n))
  {
    PrefixSum(m.payloads, n);
  }

  /** The next entry is accepted, and storing it extends the prefix. */
  lemma {:induction false} PrefixStep(t: Target, m: LastValues.Cache, n: nat)
    requires LastValues.Bounded(m) && LastValues.Filled(t.config, m) && n < |m.subjects|
    ensures LastValues.Bounded(Prefix(m, n))
    ensures LastValues.Accepted(t.config, Prefix(m, n), m.subjects[n], m.payloads[n])
    ensures LastValues.Put(Prefix(m, n), m.subjects[n], m.payloads[n]) == Prefix(m, n + 1)
  {
    PrefixBounded(m, n);
    PrefixSum(m.payloads, n + 1);
    assert m.payloads[..n + 1][..n] == m.payloads[..n];
    assert m.subjects[n] !in m.subjects[..n];
    assert m.subjects[..n + 1] == m.subjects[..n] + [m.subjects[n]];
    assert m.payloads[..n + 1] == m.payloads[..n] + [m.payloads[n]];
  }

  /** Replaying the cache entries from number `n` on rebuilds the cache, entry by entry. */
  lemma {:induction false} ReplayLvc(t: Target, m: LastValues.Cache, rules: seq<seq<Entry>>, n: nat)
    requires LastValues.Bounded(m) && LastValues.Filled(t.config, m) && AllWritable(LvcRecords(m))
    requires |rules| == |t.filters| && n <= |m.subjects|
    ensures Sound(t, Loaded(Prefix(m, n), rules))
    ensures TakenAll(t, Loaded(Prefix(m, n), rules), LvcRecords(m)[n..])
    ensures EffectAll(t, Loaded(Prefix(m, n), rules), LvcRecords(m)[n..]) == Loaded(m, rules)
    decreases |m.subjects| - n
  {
    PrefixBounded(m, n);
    var rs := LvcRecords(m)[n..];
    if n == |m.subjects| {
      assert Prefix(m, n) == m && rs == [];
    } else {
      assert RecordWritable(LvcRecords(m)[n]);
      PrefixStep(t, m, n);
      var l := Loaded(Prefix(m, n), rules);
      assert rs[0] == LvcRecord(m.subjects[n], m.payloads[n]) && rs[1..] == LvcRecords(m)[n + 1..];
      assert Effect(t, l, rs[0]) == Loaded(Prefix(m, n + 1), rules);
      ReplayLvc(t, m, rules, n + 1);
    }
  }

  /** A slot that a snapshot leaves out, or whose key splits back. */
  predicate EntryOk(e: Entry) {
    e.state.ClockState? || COLON !in e.op
  }

  function ReloadedAll(add: (u64, u64) -> u64, es: seq<Entry>): (rs: seq<Entry>)
    ensures |rs| == |es|
  {
    seq(|es|, i requires 0 <= i < |es| => es[i].(state := Reloaded(add, es[i].state)))
  }

  /** Replaying the records of some slots of one rule appends these slots to the rule. */
  lemma {:induction false} ReplaySlots(t: Target, l: Loaded, rule: nat, es: seq<Entry>)
    requires Sound(t, l) && rule < |t.filters| && AllWritable(SlotRecords(rule, t.filters[rule], es))
    requires forall e :: e in es ==> !e.state.ClockState? && EntryOk(e)
    ensures TakenAll(t, l, SlotRecords(rule, t.filters[rule], es))
    ensures EffectAll(t, l, SlotRecords(rule, t.filters[rule], es)) == l.(rules := l.rules[rule := l.rules[rule] + ReloadedAll(t.add, es)])
    decreases |es|
  {
    var rs := SlotRecords(rule, t.filters[rule], es);
    if es == [] {
      assert l.rules[rule] + ReloadedAll(t.add, es) == l.rules[rule];
      assert l.rules[rule := l.rules[rule]] == l.rules;
    } else {
      SplitKeyBack(es[0].op, es[0].subject);
      assert RecordWritable(rs[0]);
      var l' := Effect(t, l, rs[0]);
      var next := es[0].(state := Reloaded(t.add, es[0].state));
      assert l'.rules == l.rules[rule := l.rules[rule] + [next]];
      assert rs[1..] == SlotRecords(rule, t.filters[rule], es[1..]);
      ReplaySlots(t, l', rule, es[1..]);
      var all := l.rules[rule] + ReloadedAll(t.add, es);
      assert (l.rules[rule] + [next]) + ReloadedAll(t.add, es[1..]) == all;
      assert l'.rules[rule := all] == l.rules[rule := all];
    }
  }

  lemma {:induction false} KeptSlots(es: seq<Entry>)
    ensures forall e :: e in Kept(es) ==> e in es && !e.state.ClockState?
  {
    if es != [] { KeptSlots(es[1..]); }
  }

  /** The rules as the loader leaves them: those below `k` restored, the others still empty. */
  function Restored(add: (u64, u64) -> u64, rules: seq<RuleSlots>, k: nat): (rs: seq<seq<Entry>>)
    ensures |rs| == |rules|
  {
    seq(|rules|, i requires 0 <= i < |rules| => if i < k then ReloadedAll(add, Kept(rules[i].entries)) else [])
  }

  /** The time rings of these slots have sums that add up. */
  ghost predicate SumsOk(add: (u64, u64) -> u64, es: seq<Entry>) {
    forall e :: e in es && e.state.TimeRing? ==> AddsUp(add, e.state.samples, e.state.sum)
  }

  lemma {:induction false} ReloadedSums(add: (u64, u64) -> u64, es: seq<Entry>)
    ensures SumsOk(add, ReloadedAll(add, es))
  {
    forall e | e in ReloadedAll(add, es) && e.state.TimeRing?
      ensures AddsUp(add, e.state.samples, e.state.sum)
    {
      SumAddsUp(add, e.state.samples);
    }
  }

  lemma {:induction false} RestoredSums(add: (u64, u64) -> u64, rules: seq<RuleSlots>)
    ensures forall r :: 0 <= r < |rules| ==> SumsOk(add, Restored(add, rules, |rules|)[r])
  {
    forall r | 0 <= r < |rules|
      ensures SumsOk(add, Restored(add, rules, |rules|)[r])
    {
      ReloadedSums(add, Kept(rules[r].entries));
    }
  }

  predicate SlotsOk(es: seq<Entry>) {
    forall j :: 0 <= j < |es| ==> EntryOk(es[j])
  }

  predicate RulesOk(t: Target, rules: seq<RuleSlots>) {
    |rules| == |t.filters| && forall i :: 0 <= i < |rules| ==> rules[i].filter == t.filters[i] && SlotsOk(rules[i].entries)
  }

  lemma {:induction false} ReplayRule(t: Target, m: LastValues.Cache, rules: seq<RuleSlots>, k: nat)
    requires LastValues.Bounded(m) && RulesOk(t, rules) && k < |rules|
    requires AllWritable(SlotRecords(k, rules[k].filter, Kept(rules[k].entries)))
    ensures var l, rs := Loaded(m, Restored(t.add, rules, k)), SlotRecords(k, rules[k].filter, Kept(rules[k].entries));
      TakenAll(t, l, rs) && EffectAll(t, l, rs) == Loaded(m, Restored(t.add, rules, k + 1))
  {
    var l, es := Loaded(m, Restored(t.add, rules, k)), Kept(rules[k].entries);
    KeptSlots(rules[k].entries);
    ReplaySlots(t, l, k, es);
    assert [] + ReloadedAll(t.add, es) == ReloadedAll(t.add, es);
    assert l.rules[k := l.rules[k] + ReloadedAll(t.add, es)] == Restored(t.add, rules, k + 1);
  }

  lemma {:induction false} ReplayRules(t: Target, m: LastValues.Cache, rules: seq<RuleSlots>, k: nat)
    requires LastValues.Bounded(m) && RulesOk(t, rules) && k <= |rules| && AllWritable(RuleRecords(rules, k))
    ensures var l := Loaded(m, Restored(t.add, rules, k));
      TakenAll(t, l, RuleRecords(rules, k)) && EffectAll(t, l, RuleRecords(rules, k)) == Loaded(m, Restored(t.add, rules, |rules|))
    decreases |rules| - k
  {
    if k < |rules| {
      WritableParts(SlotRecords(k, rules[k].filter, Kept(rules[k].entries)), RuleRecords(rules, k + 1));
      ReplayRule(t, m, rules, k);
      ReplayRules(t, m, rules, k + 1);
      EffectAllAppend(t, Loaded(m, Restored(t.add, rules, k)), SlotRecords(k, rules[k].filter, Kept(rules[k].entries)), RuleRecords(rules, k + 1));
    }
  }

  /** The records of a snapshot are all taken by an empty loader, which they fill as they were. */
  lemma {:induction false} ReplayAll(t: Target, m: LastValues.Cache, rules: seq<RuleSlots>)
    requires LastValues.Bounded(m) && LastValues.Filled(t.config, m) && RulesOk(t, rules) && AllWritable(Records(m, rules))
    ensures var l := Loaded(LastValues.EMPTY_CACHE, Restored(t.add, rules, 0));
      Sound(t, l) && TakenAll(t, l, Records(m, rules)) && EffectAll(t, l, Records(m, rules)) == Loaded(m, Restored(t.add, rules, |rules|))
  {
    var l := Loaded(LastValues.EMPTY_CACHE, Restored(t.add, rules, 0));
    WritableParts(LvcRecords(m), RuleRecords(rules, 0));
    assert Prefix(m, 0) == LastValues.EMPTY_CACHE && LvcRecords(m)[0..] == LvcRecords(m);
    ReplayLvc(t, m, Restored(t.add, rules, 0), 0);
    ReplayRules(t, m, rules, 0);
    EffectAllAppend(t, l, LvcRecords(m), RuleRecords(rules, 0));
  }

  lemma {:induction false} HeaderRead(t: Target, body: Slice, l: Loaded)
    requires Sound(t, l)
    ensures LoadFile(t, HEADER + body, l) == Load(t, body, l)
  {
    var file := HEADER + body;
    assert file[8..] == body && file[..4] == HEADER[..4] && file[4] == 4;
  }

  /**
   Snapshot round trip: for the same rules, and a cache filled under the same filters, whatever the
   writer can write restores the cache entry for entry and every slot that is not a clock, with the
   sums of time rings added up anew, unless it holds a count ring too large for the loader, which
   then refuses the file.
   */
  lemma {:induction false} SnapshotRoundTrip(t: Target, m: LastValues.Cache, rules: seq<RuleSlots>)
    requires LastValues.Bounded(m) && LastValues.Filled(t.config, m) && RulesOk(t, rules) && AllWritable(Records(m, rules))
    ensures Sound(t, Loaded(LastValues.EMPTY_CACHE, Restored(t.add, rules, 0)))
    ensures LoadFile(t, HEADER + EncRecords(Records(m, rules)), Loaded(LastValues.EMPTY_CACHE, Restored(t.add, rules, 0))) ==
      if AllLoad(Records(m, rules)) then Some(Loaded(m, Restored(t.add, rules, |rules|))) else None
  {
    ReplayAll(t, m, rules);
    LoadRecords(t, Loaded(LastValues.EMPTY_CACHE, Restored(t.add, rules, 0)), Records(m, rules));
    HeaderRead(t, EncRecords(Records(m, rules)), Loaded(LastValues.EMPTY_CACHE, Restored(t.add, rules, 0)));
  }
}
