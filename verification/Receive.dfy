/**
 The receive loop `process_rx` (`src/server/conn.c`), for any incremental parser: one whose every
 verdict stands whatever bytes follow.
 */
module Receive {
  import opened Bytes

  const MAX_CONTROL_LINE: nat := 4096
  const MAX_PAYLOAD: nat := 1024 * 1024
  const MAX_RX: nat := MAX_CONTROL_LINE + MAX_PAYLOAD + 64

  datatype Op =
    | Connect(json: Slice)
    | Ping
    | Sub(subject: Slice, queue: Slice, sid: Slice)
    | Unsub(sid: Slice, max: Option<nat>)
    | Pub(subject: Slice, reply: Slice, payload: Slice)

  datatype ParseResult =
    | Ok(op: Op, consumed: nat)
    | NeedMore
    | Malformed
    | Unknown
    | InvalidArgs
    | PayloadTooLarge
    | ControlLineTooLong

  type Parser = Slice -> ParseResult

  /** The index of the first newline, or the length when there is none. */
  function LineLen(buf: Slice): (n: nat)
    ensures n <= |buf|
    ensures forall i :: 0 <= i < n ==> buf[i] != NL
    ensures n < |buf| ==> buf[n] == NL
  {
    if buf == [] || buf[0] == NL then 0 else 1 + LineLen(buf[1..])
  }

  lemma {:induction false} LineLenAppend(buf: Slice, more: Slice)
    ensures LineLen(buf) < |buf| ==> LineLen(buf + more) == LineLen(buf)
    ensures LineLen(buf) == |buf| ==> LineLen(buf + more) >= |buf|
  {
    if buf != [] && buf[0] != NL {
      assert (buf + more)[1..] == buf[1..] + more;
      LineLenAppend(buf[1..], more);
    }
  }

  predicate FatalResult(r: ParseResult) {
    r.ControlLineTooLong? || r.Malformed? || r.PayloadTooLarge?
  }

  /** Success consumes something, a skippable error has a line end, an undecided buffer is below the cap. */
  predicate Sound(r: ParseResult, buf: Slice) {
    (r.Ok? ==> 0 < r.consumed <= |buf|) &&
    (r.Unknown? || r.InvalidArgs? ==> LineLen(buf) < |buf|) &&
    (r.NeedMore? ==> |buf| < MAX_RX)
  }

  ghost predicate Incremental(parse: Parser) {
    parse([]) == NeedMore &&
    (forall buf: Slice :: Sound(parse(buf), buf)) &&
    (forall buf: Slice, more: Slice :: parse(buf) != NeedMore ==> parse(buf + more) == parse(buf))
  }

  /** What the connection does for one parse result that is not NEED_MORE. */
  datatype Event = Handled(op: Op) | Rejected(unknown: bool) | Violation

  /**
   Whether the connection is closing once these events have been handled: everything `handle_op`
   and `write_err_or_close` may decide.
   */
  type Closes = seq<Event> -> bool

  datatype Rx = Rx(events: seq<Event>, closing: bool, rx: Slice)

  const START: Rx := Rx([], false, [])

  function EventOf(r: ParseResult): Event {
    if FatalResult(r) then Violation else if r.Ok? then Handled(r.op) else Rejected(r.Unknown?)
  }

  function Width(r: ParseResult, buf: Slice): nat {
    if r.Ok? then r.consumed else LineLen(buf) + 1
  }

  /** One verdict handled: an event, then either the connection closes or the bytes it accounts for go. */
  function Handle(parse: Parser, st: Rx, stops: Closes): (st': Rx)
    requires parse(st.rx) != NeedMore && Sound(parse(st.rx), st.rx)
    ensures st'.closing || |st'.rx| < |st.rx|
  {
    var r := parse(st.rx);
    var events := st.events + [EventOf(r)];
    if FatalResult(r) || stops(events) then Rx(events, true, st.rx)
    else Rx(events, false, st.rx[Width(r, st.rx)..])
  }

  /** Handle everything the buffer decides. */
  ghost function Drain(parse: Parser, st: Rx, stops: Closes): (st': Rx)
    requires Incremental(parse)
    ensures !st'.closing ==> parse(st'.rx) == NeedMore
    decreases !st.closing, |st.rx|
  {
    if st.closing || parse(st.rx) == NeedMore then st
    else assert Sound(parse(st.rx), st.rx); Drain(parse, Handle(parse, st, stops), stops)
  }

  /** Feed reads one after another; a closing connection reads no more. */
  ghost function Feed(parse: Parser, st: Rx, chunks: seq<Slice>, stops: Closes): Rx
    requires Incremental(parse)
    decreases |chunks|
  {
    if chunks == [] || st.closing then st
    else Feed(parse, Drain(parse, st.(rx := st.rx + chunks[0]), stops), chunks[1..], stops)
  }

  function Concat(chunks: seq<Slice>): Slice {
    if chunks == [] then [] else chunks[0] + Concat(chunks[1..])
  }

  /** Equal up to the buffer of a connection that is closing, which is never read again. */
  predicate Same(a: Rx, b: Rx) {
    a.events == b.events && a.closing == b.closing && (!a.closing ==> a.rx == b.rx)
  }

  /** Handling one verdict commutes with the arrival of more bytes. */
  lemma {:induction false} HandleAppend(parse: Parser, st: Rx, more: Slice, stops: Closes)
    requires Incremental(parse) && parse(st.rx) != NeedMore
    ensures Sound(parse(st.rx), st.rx) && parse(st.rx + more) != NeedMore && Sound(parse(st.rx + more), st.rx + more)
    ensures var next, whole := Handle(parse, st, stops), Handle(parse, st.(rx := st.rx + more), stops);
      if next.closing then Same(whole, next) else whole == next.(rx := next.rx + more)
  {
    assert parse(st.rx + more) == parse(st.rx);
    assert Sound(parse(st.rx), st.rx) && Sound(parse(st.rx + more), st.rx + more);
    LineLenAppend(st.rx, more);
    var w := Width(parse(st.rx), st.rx);
    if !FatalResult(parse(st.rx)) {
      assert (st.rx + more)[w..] == st.rx[w..] + more;
    }
  }

  lemma {:induction false} DrainResume(parse: Parser, st: Rx, more: Slice, stops: Closes)
    requires Incremental(parse) && !st.closing
    ensures var mid := Drain(parse, st, stops);
      Same(Drain(parse, st.(rx := st.rx + more), stops),
           if mid.closing then mid else Drain(parse, mid.(rx := mid.rx + more), stops))
    decreases |st.rx|
  {
    if parse(st.rx) != NeedMore {
      HandleAppend(parse, st, more, stops);
      var next := Handle(parse, st, stops);
      if !next.closing {
        DrainResume(parse, next, more, stops);
      }
    }
  }

  lemma {:induction false} ConcatNext(rx: Slice, chunks: seq<Slice>)
    requires chunks != []
    ensures rx + Concat(chunks) == (rx + chunks[0]) + Concat(chunks[1..])
  {
  }

  /** Feeding reads one by one ends where draining their concatenation at once does. */
  lemma {:induction false} ChunkingInvariance(parse: Parser, st: Rx, chunks: seq<Slice>, stops: Closes)
    requires Incremental(parse) && !st.closing && parse(st.rx) == NeedMore
    ensures Same(Feed(parse, st, chunks, stops), Drain(parse, st.(rx := st.rx + Concat(chunks)), stops))
    decreases |chunks|
  {
    if chunks == [] {
      assert st.rx + [] == st.rx;
    } else {
      var first := st.(rx := st.rx + chunks[0]);
      var mid := Drain(parse, first, stops);
      DrainResume(parse, first, Concat(chunks[1..]), stops);
      ConcatNext(st.rx, chunks);
      if !mid.closing {
        ChunkingInvariance(parse, mid, chunks[1..], stops);
      }
    }
  }

  /** Two splits of one stream into reads are indistinguishable. */
  lemma {:induction false} SplitsAgree(parse: Parser, chunks: seq<Slice>, chunks': seq<Slice>, stops: Closes)
    requires Incremental(parse) && Concat(chunks) == Concat(chunks')
    ensures Same(Feed(parse, START, chunks, stops), Feed(parse, START, chunks', stops))
  {
    ChunkingInvariance(parse, START, chunks, stops);
    ChunkingInvariance(parse, START, chunks', stops);
  }

  /** What each verdict of the parser comes to. */
  lemma {:induction false} VerdictsHandled(parse: Parser, events: seq<Event>, rx: Slice, stops: Closes)
    requires Incremental(parse) && forall es :: !stops(es)
    ensures var st := Rx(events, false, rx);
      match parse(rx)
      case NeedMore => Drain(parse, st, stops) == st
      case Ok(op, n) => n <= |rx| && Drain(parse, st, stops) == Drain(parse, Rx(events + [Handled(op)], false, rx[n..]), stops)
      case Unknown =>
        LineLen(rx) < |rx| && Drain(parse, st, stops) == Drain(parse, Rx(events + [Rejected(true)], false, rx[LineLen(rx) + 1..]), stops)
      case InvalidArgs =>
        LineLen(rx) < |rx| && Drain(parse, st, stops) == Drain(parse, Rx(events + [Rejected(false)], false, rx[LineLen(rx) + 1..]), stops)
      case _ => Drain(parse, st, stops).closing && Drain(parse, st, stops).events == events + [Violation]
  {
    assert Sound(parse(rx), rx);
  }

  /** A connection's receive side. `events` is the trace of calls to `handle_op` and `mb_write_err`. */
  class Conn {
    const parse: Parser
    const stops: Closes
    var rx: Slice
    var closing: bool
    var events: seq<Event>

    constructor (parse: Parser, stops: Closes)
      ensures this.parse == parse && this.stops == stops && State() == START
    {
      this.parse, this.stops := parse, stops;
      rx, closing, events := [], false, [];
    }

    ghost function State(): Rx
      reads this
    {
      Rx(events, closing, rx)
    }

    /** The `memchr` for the line end after a rejected operation. */
    method SkipLine(cursor: nat) returns (next: nat)
      requires cursor <= |rx| && LineLen(rx[cursor..]) < |rx| - cursor
      ensures next == cursor + LineLen(rx[cursor..]) + 1
    {
      next := cursor;
      while rx[next] != NL
        invariant cursor <= next <= cursor + LineLen(rx[cursor..])
        decreases |rx| - next
      {
        assert rx[cursor..][next - cursor] == rx[next];
        next := next + 1;
      }
      assert rx[cursor..][next - cursor] == NL;
      next := next + 1;
    }

    /** Past the bytes that a verdict which keeps the connection open accounts for. */
    method Advance(cursor: nat, r: ParseResult) returns (next: nat)
      requires cursor <= |rx| && Sound(r, rx[cursor..]) && r != NeedMore && !FatalResult(r)
      ensures cursor < next <= |rx| && rx[next..] == rx[cursor..][Width(r, rx[cursor..])..]
    {
      if r.Ok? {
        next := cursor + r.consumed;
      } else {
        next := SkipLine(cursor);
      }
      RestOf(rx, cursor, next);
    }

    /** `process_rx`: the cursor loop, the compaction, and a size check that never fires. */
    method ProcessRx()
      requires Incremental(parse) && !closing
      modifies this
      ensures Same(State(), Drain(parse, old(State()), stops))
      ensures !closing ==> |rx| < MAX_RX
    {
      var cursor := 0;
      assert rx[0..] == rx;
      while cursor < |rx|
        invariant 0 <= cursor <= |rx| && rx == old(rx) && !closing
        invariant Drain(parse, old(State()), stops) == Drain(parse, Rx(events, false, rx[cursor..]), stops)
        decreases |rx| - cursor
      {
        ghost var here := Rx(events, false, rx[cursor..]);
        var r := parse(rx[cursor..]);
        if r == NeedMore {
          break;
        }
        assert Sound(r, here.rx);
        events := events + [EventOf(r)];
        if FatalResult(r) || stops(events) {
          closing := true;
          return;
        }
        cursor := Advance(cursor, r);
        assert Handle(parse, here, stops) == Rx(events, false, rx[cursor..]);
      }
      assert Sound(parse(rx[cursor..]), rx[cursor..]);
      if cursor > 0 {
        rx := rx[cursor..];
      } else {
        assert rx[cursor..] == rx;
      }
      if |rx| > MAX_RX {
        assert false;  // mb_conn_begin_close is unreachable here
      }
    }
  }

  lemma {:induction false} RestOf(s: Slice, cursor: nat, next: nat)
    requires cursor <= next <= |s|
    ensures s[cursor..][next - cursor..] == s[next..]
  {
  }
}
