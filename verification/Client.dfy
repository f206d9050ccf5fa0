/**
 The other end of the client protocol: the bytes of an operation as a client sends it, and what
 `mb_parse_client_op` (`src/proto.c`) and the receive loop make of them.
 */
module Client {
  import opened Bytes
  import opened Receive
  import opened Subjects
  import opened Wire
  import opened Frames

  /** What a client can ask for. */
  predicate Acceptable(op: Op) {
    match op
    case Ping => true
    case Connect(json) => Trim(json) == json && NL !in json
    case Sub(subject, queue, sid) => SubjectValid(subject, true) && TokenValid(sid) && (queue == [] || TokenValid(queue))
    case Unsub(sid, max) => TokenValid(sid) && (max.Some? ==> max.value <= SIZE_MAX)
    case Pub(subject, reply, payload) =>
      SubjectValid(subject, false) && (reply == [] || SubjectValid(reply, false)) && |payload| <= MAX_PAYLOAD
  }

  function VerbText(op: Op): Slice {
    match op
    case Ping => PING
    case Connect(_) => CONNECT
    case Sub(_, _, _) => SUB
    case Unsub(_, _) => UNSUB
    case Pub(_, _, _) => PUB
  }

  /** The arguments of an operation, after its verb. */
  function Arguments(op: Op): Slice {
    match op
    case Ping => []
    case Connect(json) => json
    case Sub(subject, queue, sid) => Field(subject, if queue == [] then sid else Field(queue, sid))
    case Unsub(sid, max) => if max.None? then sid else Field(sid, Decimal(max.value))
    case Pub(subject, reply, payload) => Field(subject, MsgSize(reply, payload))
  }

  /** The control line of an operation. */
  function Line(op: Op): Slice {
    if op.Ping? then PING else Field(VerbText(op), Arguments(op))
  }

  /** The line, and the payload block of a PUB. */
  function Encode(op: Op): Slice {
    Line(op) + (CRLF + if op.Pub? then op.payload + CRLF else [])
  }

  lemma {:induction false} SubjectIsToken(s: Slice, wildcards: bool)
    requires SubjectValid(s, wildcards)
    ensures TokenValid(s)
  {
    ValidShape(s, wildcards);
  }

  lemma {:induction false} VerbWords(op: Op)
    ensures BlankFree(VerbText(op)) && NoLineEnd(VerbText(op)) && VerbText(op) != []
    ensures VerbOf(VerbText(op)) ==
      match op { case Ping => VPing case Connect(_) => VConnect case Sub(_, _, _) => VSub case Unsub(_, _) => VUnsub case Pub(_, _, _) => VPub }
  {
    assert !IsVerb(CONNECT, PING);
    assert !IsVerb(SUB, PING) && !IsVerb(SUB, CONNECT);
    assert !IsVerb(UNSUB, PING) && !IsVerb(UNSUB, CONNECT) && !IsVerb(UNSUB, SUB);
    assert !IsVerb(PUB, PING) && !IsVerb(PUB, CONNECT) && PUB[0] != SUB[0] && !IsVerb(PUB, SUB) && !IsVerb(PUB, UNSUB);
  }

  /** The words of a SUB, UNSUB or PUB after the verb. */
  function ArgumentWords(op: Op): seq<Slice>
    requires op.Sub? || op.Unsub? || op.Pub?
  {
    match op
    case Sub(subject, queue, sid) => [subject] + ((if queue == [] then [] else [queue]) + [sid])
    case Unsub(sid, max) => [sid] + if max.None? then [] else [Decimal(max.value)]
    case Pub(subject, reply, payload) => [subject] + ((if reply == [] then [] else [reply]) + [Decimal(|payload|)])
  }

  lemma {:induction false} TwoFields(a: Slice, b: Slice)
    requires TokenValid(a) && b != [] && BlankFree(b) && NoLineEnd(b)
    ensures Words(Field(a, b)) == [a, b] && NoLineEnd(Field(a, b))
  {
    TokenIsWord(a);
    WordsOne(b);
    WordsCons(a, b);
    FieldNoLineEnd(a, b);
  }

  lemma {:induction false} ArgumentsAre(op: Op)
    requires Acceptable(op) && (op.Sub? || op.Unsub? || op.Pub?)
    ensures Words(Arguments(op)) == ArgumentWords(op) && NoLineEnd(Arguments(op))
  {
    match op
    case Sub(subject, queue, sid) =>
      SubjectIsToken(subject, true);
      TokenIsWord(sid);
      if queue == [] {
        TwoFields(subject, sid);
      } else {
        WordsOne(sid);
        TwoWords(subject, queue, sid);
      }
    case Unsub(sid, max) =>
      TokenIsWord(sid);
      if max.None? {
        WordsOne(sid);
      } else {
        DecimalIsWord(max.value);
        TwoFields(sid, Decimal(max.value));
      }
    case Pub(subject, reply, payload) =>
      SubjectIsToken(subject, false);
      if reply != [] {
        SubjectIsToken(reply, false);
      }
      MsgSizeWords(reply, payload);
      TokenIsWord(subject);
      WordsCons(subject, MsgSize(reply, payload));
      FieldNoLineEnd(subject, MsgSize(reply, payload));
  }

  // ----- one operation -----

  lemma {:induction false} TrimRightSolid(a: Slice, b: Slice)
    requires b != [] && TrimRight(b) == b
    ensures TrimRight(a + b) == a + b
  {
    assert |TrimRight(b[..|b| - 1])| < |b|;
    assert (a + b)[|a + b| - 1] == b[|b| - 1];
  }

  /** What follows the verb of a CONNECT is its text, which may be empty or have blanks within. */
  lemma {:induction false} ConnectText(json: Slice)
    requires Trim(json) == json
    ensures Words(Field(CONNECT, json)) == [CONNECT] + Words(json) && AfterWord(Field(CONNECT, json)) == json
  {
    var line := Field(CONNECT, json);
    WordsCons(CONNECT, json);
    assert TrimLeft(line) == line;
    if json == [] {
      ConnectNothing();
    } else {
      TrimmedIsTrimmedRight(json);
      TrimRightSolid(CONNECT + [SPACE], json);
      assert line == (CONNECT + [SPACE]) + json;
      WordEndOf(CONNECT, [SPACE] + json);
      assert line[7..] == [SPACE] + json;
      assert ([SPACE] + json)[1..] == json;
    }
  }

  lemma {:induction false} ConnectNothing()
    ensures AfterWord(Field(CONNECT, [])) == []
  {
    var line := Field(CONNECT, []);
    assert line == CONNECT + [SPACE] && line[..7] == CONNECT;
    assert TrimLeft(line) == line && TrimRight(line) == TrimRight(CONNECT) == CONNECT;
    WordEndOf(CONNECT, []);
    assert CONNECT + [] == CONNECT && CONNECT[7..] == [];
  }

  lemma {:induction false} TrimmedIsTrimmedRight(s: Slice)
    requires Trim(s) == s
    ensures TrimRight(s) == s && TrimLeft(s) == s
  {
    assert |TrimRight(TrimLeft(s))| <= |TrimLeft(s)| <= |s|;
    LeftWhole(s);
  }

  lemma {:induction false} LeftWhole(s: Slice)
    requires |TrimLeft(s)| == |s|
    ensures TrimLeft(s) == s
  {
    if s != [] {
      assert |TrimLeft(s[1..])| < |s|;
    }
  }

  lemma {:induction false} LineWords(op: Op)
    requires Acceptable(op)
    ensures Words(Line(op)) != [] && Words(Line(op))[0] == VerbText(op) && NL !in Line(op)
    ensures op.Ping? ==> |Words(Line(op))| == 1
    ensures op.Connect? ==> AfterWord(Line(op)) == op.json
    ensures op.Sub? || op.Unsub? || op.Pub? ==> Words(Line(op)) == [VerbText(op)] + ArgumentWords(op)
  {
    VerbWords(op);
    match op
    case Ping => WordsOne(PING);
    case Connect(json) => ConnectText(json);
    case _ =>
      ArgumentsAre(op);
      WordsCons(VerbText(op), Arguments(op));
      FieldNoLineEnd(VerbText(op), Arguments(op));
  }

  /** What the words of an operation parse to; of a PUB, the payload is then looked for. */
  function Taken(op: Op, body: Slice, lineEnd: nat): ParseResult {
    if op.Pub? then PubBody(op.subject, op.reply, |op.payload|, body, lineEnd) else Ok(op, lineEnd)
  }

  lemma {:induction false} SubParses(op: Op, w: seq<Slice>, text: Slice, body: Slice, lineEnd: nat)
    requires Acceptable(op) && op.Sub? && w == [SUB] + ArgumentWords(op)
    ensures ParseWords(VSub, w, text, body, lineEnd) == Ok(op, lineEnd)
  {
  }

  lemma {:induction false} UnsubParses(op: Op, w: seq<Slice>, text: Slice, body: Slice, lineEnd: nat)
    requires Acceptable(op) && op.Unsub? && w == [UNSUB] + ArgumentWords(op)
    ensures ParseWords(VUnsub, w, text, body, lineEnd) == Ok(op, lineEnd)
  {
    if op.max.Some? {
      assert ParseNat(Decimal(op.max.value)) == Some(op.max.value);
    }
  }

  lemma {:induction false} PubParses(op: Op, w: seq<Slice>, text: Slice, body: Slice, lineEnd: nat)
    requires Acceptable(op) && op.Pub? && w == [PUB] + ArgumentWords(op)
    ensures ParseWords(VPub, w, text, body, lineEnd) == Taken(op, body, lineEnd)
  {
    assert ParseNat(Decimal(|op.payload|)) == Some(|op.payload|);
  }

  lemma {:induction false} LineParses(op: Op, body: Slice, lineEnd: nat)
    requires Acceptable(op)
    ensures ParseLine(Line(op), body, lineEnd) == Taken(op, body, lineEnd)
  {
    LineWords(op);
    VerbWords(op);
    var w, text := Words(Line(op)), AfterWord(Line(op));
    match op
    case Sub(_, _, _) => SubParses(op, w, text, body, lineEnd);
    case Unsub(_, _) => UnsubParses(op, w, text, body, lineEnd);
    case Pub(_, _, _) => PubParses(op, w, text, body, lineEnd);
    case _ =>
  }

  /** Finding a line that ends in CRLF. */
  lemma {:induction false} LineFound(parseLine: (Slice, Slice, nat) -> ParseResult, buf: Slice, line: Slice, body: Slice, r: ParseResult)
    requires NL !in line && buf == line + (CRLF + body) && parseLine(line, body, |line| + 2) == r
    ensures ParseWith(parseLine, buf) == if |line| < MAX_CONTROL_LINE then r else ControlLineTooLong
  {
    CrlfLine(line, body);
  }

  lemma {:induction false} BlockFound(op: Op, rest: Slice, lineEnd: nat)
    requires op.Pub?
    ensures Taken(op, op.payload + (CRLF + rest), lineEnd) == Ok(op, lineEnd + |op.payload| + 2)
  {
    BodyParts(op.payload, rest);
    var body := op.payload + (CRLF + rest);
    assert body[|op.payload|] == CR && body[|op.payload| + 1] == NL;
  }

  /** What follows the line of an operation. */
  function After(op: Op, rest: Slice): Slice {
    if op.Pub? then op.payload + (CRLF + rest) else rest
  }

  /** The end of the line and of the payload block. */
  function Width(op: Op): nat {
    2 + if op.Pub? then |op.payload| + 2 else 0
  }

  lemma {:induction false} EncodeLines(op: Op, rest: Slice)
    ensures Encode(op) + rest == Line(op) + (CRLF + After(op, rest)) && |Encode(op)| == |Line(op)| + Width(op)
  {
    var block := if op.Pub? then op.payload + CRLF else [];
    Assoc(Line(op), CRLF + block, rest);
    Assoc(CRLF, block, rest);
    if op.Pub? {
      Assoc(op.payload, CRLF, rest);
    } else {
      assert block + rest == rest;
    }
  }

  lemma {:induction false} OneLine(op: Op)
    requires Acceptable(op)
    ensures NL !in Line(op)
  {
    LineWords(op);
  }

  /** The line and what follows it. */
  lemma {:induction false} OpTaken(op: Op, rest: Slice, lineEnd: nat)
    requires Acceptable(op) && lineEnd >= 2
    ensures ParseLine(Line(op), After(op, rest), lineEnd) == Ok(op, lineEnd - 2 + Width(op))
  {
    LineParses(op, After(op, rest), lineEnd);
    if op.Pub? {
      BlockFound(op, rest, lineEnd);
    }
  }

  lemma {:induction false} LineTaken(parseLine: (Slice, Slice, nat) -> ParseResult, buf: Slice, bytes: Slice, op: Op, rest: Slice)
    requires bytes == Encode(op) && buf == bytes + rest
    requires NL !in Line(op) && parseLine(Line(op), After(op, rest), |Line(op)| + 2) == Ok(op, |Line(op)| + Width(op))
    ensures ParseWith(parseLine, buf) == if |Line(op)| < MAX_CONTROL_LINE then Ok(op, |bytes|) else ControlLineTooLong
  {
    EncodeLines(op, rest);
    LineFound(parseLine, buf, Line(op), After(op, rest), Ok(op, |bytes|));
  }

  /**
   What a client sends parses to its operation and takes exactly its bytes, whatever follows; a line
   that is too long is refused.
   */
  lemma {:induction false} OpRoundTrip(op: Op, rest: Slice)
    requires Acceptable(op)
    ensures Parse(Encode(op) + rest) ==
      if |Line(op)| < MAX_CONTROL_LINE then Ok(op, |Encode(op)|) else ControlLineTooLong
  {
    OneLine(op);
    OpTaken(op, rest, |Line(op)| + 2);
    LineTaken(ParseLine, Encode(op) + rest, Encode(op), op, rest);
  }

  // ----- and back: nothing else is accepted -----

  lemma {:induction false} TrimWithin(s: Slice, b: byte)
    requires b in Trim(s)
    ensures b in s
  {
    RightWithin(TrimLeft(s), b);
    LeftWithin(s, b);
  }

  lemma {:induction false} LeftWithin(s: Slice, b: byte)
    requires b in TrimLeft(s)
    ensures b in s
  {
    if s != [] && Blank(s[0]) {
      LeftWithin(s[1..], b);
    }
  }

  lemma {:induction false} RightWithin(s: Slice, b: byte)
    requires b in TrimRight(s)
    ensures b in s
  {
    if s != [] && Blank(s[|s| - 1]) {
      RightWithin(s[..|s| - 1], b);
    }
  }

  lemma {:induction false} AfterWordText(line: Slice)
    requires NL !in line
    ensures Trim(AfterWord(line)) == AfterWord(line) && NL !in AfterWord(line)
  {
    var t := Trim(line);
    TrimmedLine(t[WordEnd(t)..]);
    if NL in AfterWord(line) {
      TrimWithin(t[WordEnd(t)..], NL);
      TrimWithin(line, NL);
    }
  }

  lemma {:induction false} WordsAccepted(verb: Verb, w: seq<Slice>, text: Slice, body: Slice, lineEnd: nat)
    requires Trim(text) == text && NL !in text && ParseWords(verb, w, text, body, lineEnd).Ok?
    ensures Acceptable(ParseWords(verb, w, text, body, lineEnd).op)
  {
    if verb == VPub {
      var reply := if |w| == 4 then w[2] else [];
      assert ParseWords(verb, w, text, body, lineEnd) == PubResult(w[1], reply, w[|w| - 1], body, lineEnd);
      PubAccepted(w[1], reply, w[|w| - 1], body, lineEnd);
    }
  }

  lemma {:induction false} PubAccepted(subject: Slice, reply: Slice, sizeWord: Slice, body: Slice, lineEnd: nat)
    requires PubResult(subject, reply, sizeWord, body, lineEnd).Ok?
    ensures Acceptable(PubResult(subject, reply, sizeWord, body, lineEnd).op)
  {
  }

  /** Whatever the parser takes is an operation that a client can ask for. */
  lemma {:induction false} ParsedAcceptable(buf: Slice)
    requires Parse(buf).Ok?
    ensures Acceptable(Parse(buf).op)
  {
    var nl := LineLen(buf);
    var line := DropCr(buf[..nl]);
    assert NL !in line;
    AfterWordText(line);
    WordsAccepted(VerbOf(Words(line)[0]), Words(line), AfterWord(line), buf[nl + 1..], nl + 1);
  }

  // ----- a whole session -----

  function HandledAll(ops: seq<Op>): seq<Event> {
    seq(|ops|, i requires 0 <= i < |ops| => Handled(ops[i]))
  }

  lemma {:induction false} HandledCons(events: seq<Event>, ops: seq<Op>)
    requires ops != []
    ensures (events + [Handled(ops[0])]) + HandledAll(ops[1..]) == events + HandledAll(ops)
  {
    assert [Handled(ops[0])] + HandledAll(ops[1..]) == HandledAll(ops);
  }

  predicate Short(op: Op) {
    Acceptable(op) && |Line(op)| < MAX_CONTROL_LINE
  }

  /** One operation at the front of the buffer is handled. */
  lemma {:induction false} DrainOne(parse: Parser, op: Op, bytes: Slice, rest: Slice, events: seq<Event>, stops: Closes)
    requires Incremental(parse) && parse(bytes + rest) == Ok(op, |bytes|) && !stops(events + [Handled(op)])
    ensures Drain(parse, Rx(events, false, bytes + rest), stops) == Drain(parse, Rx(events + [Handled(op)], false, rest), stops)
  {
    assert Receive.Sound(parse(bytes + rest), bytes + rest);
    assert (bytes + rest)[|bytes|..] == rest;
  }

  lemma {:induction false} SessionDrains(parse: Parser, encode: Op -> Slice, ops: seq<Op>, events: seq<Event>, stops: Closes)
    requires Incremental(parse) && forall es :: !stops(es)
    requires forall op, rest :: op in ops ==> parse(encode(op) + rest) == Ok(op, |encode(op)|)
    ensures Drain(parse, Rx(events, false, Stream(encode, ops)), stops) == Rx(events + HandledAll(ops), false, [])
    decreases |ops|
  {
    if ops == [] {
      assert events + HandledAll(ops) == events;
    } else {
      DrainOne(parse, ops[0], encode(ops[0]), Stream(encode, ops[1..]), events, stops);
      SessionDrains(parse, encode, ops[1..], events + [Handled(ops[0])], stops);
      HandledCons(events, ops);
    }
  }

  /** However the operations of a session are cut into reads, each is handled, in order, and no byte is left over. */
  lemma {:induction false} SessionHandled(ops: seq<Op>, chunks: seq<Slice>, stops: Closes)
    requires (forall op :: op in ops ==> Short(op)) && Concat(chunks) == Stream(Encode, ops) && forall es :: !stops(es)
    ensures Incremental(Parse) && Feed(Parse, START, chunks, stops) == Rx(HandledAll(ops), false, [])
  {
    ParseIncremental();
    ChunkingInvariance(Parse, START, chunks, stops);
    forall op, rest | op in ops
      ensures Parse(Encode(op) + rest) == Ok(op, |Encode(op)|)
    {
      OpRoundTrip(op, rest);
    }
    SessionDrains(Parse, Encode, ops, [], stops);
    assert [] + Concat(chunks) == Concat(chunks);
    assert [] + HandledAll(ops) == HandledAll(ops);
  }
}
