/**
 Outgoing frames: the NATS MSG writer of `src/proto.c` and the server-sent-event writer of
 `src/server/http.c`. Each measured length is the number of bytes written, and a client that reads
 the stream back gets the messages that went in.
 */
module Frames {
  import opened Bytes
  import opened Receive
  import opened Subjects
  import opened Wire
  import Utf8

  /** `mb_buf`; growing it always succeeds here. */
  class Buf {
    var data: Slice

    constructor ()
      ensures data == []
    {
      data := [];
    }

    method Append(s: Slice)
      modifies this
      ensures data == old(data) + s
    {
      data := data + s;
    }
  }

  lemma {:induction false} Assoc(a: Slice, b: Slice, c: Slice)
    ensures (a + b) + c == a + (b + c)
  {
  }

  /** Append the next part of `goal`; `rest` is what then remains to be written. */
  method Put(out: Buf, part: Slice, ghost rest: Slice, ghost goal: Slice)
    requires out.data + (part + rest) == goal
    modifies out
    ensures out.data + rest == goal
  {
    Assoc(out.data, part, rest);
    out.Append(part);
  }

  // ----- streams of frames -----

  function Stream<M>(frame: M -> Slice, ms: seq<M>): Slice {
    if ms == [] then [] else frame(ms[0]) + Stream(frame, ms[1..])
  }

  /** Read `n` frames in a row with a decoder that returns one message and the bytes after it. */
  function DecodeAll<M>(decode: Slice -> Option<(M, Slice)>, buf: Slice, n: nat): Option<seq<M>>
    decreases n
  {
    if n == 0 then if buf == [] then Some([]) else None
    else
      match decode(buf)
      case None => None
      case Some((m, rest)) =>
        match DecodeAll(decode, rest, n - 1)
        case None => None
        case Some(ms) => Some([m] + ms)
  }

  lemma {:induction false} StreamDecodes<M(!new)>(frame: M -> Slice, decode: Slice -> Option<(M, Slice)>, ms: seq<M>)
    requires forall m, rest :: m in ms ==> decode(frame(m) + rest) == Some((m, rest))
    ensures DecodeAll(decode, Stream(frame, ms), |ms|) == Some(ms)
  {
    if ms != [] {
      StreamDecodes(frame, decode, ms[1..]);
      assert ms == [ms[0]] + ms[1..];
    }
  }

  lemma {:induction false} StreamSnoc<M>(frame: M -> Slice, ms: seq<M>, m: M)
    ensures Stream(frame, ms + [m]) == Stream(frame, ms) + frame(m)
  {
    if ms == [] {
      assert ([] + [m])[1..] == [];
    } else {
      StreamSnoc(frame, ms[1..], m);
      assert (ms + [m])[1..] == ms[1..] + [m];
      Assoc(frame(ms[0]), Stream(frame, ms[1..]), frame(m));
    }
  }

  const MSG_VERB: Slice := [77, 83, 71]          // MSG
  const CRLF: Slice := [CR, NL]

  datatype Msg = Msg(subject: Slice, sid: Slice, reply: Slice, payload: Slice)

  // ----- decimal lengths -----

  function Decimal(n: nat): (s: Slice)
    ensures Digits(s) && DecimalValue(s) == n
    ensures s != []
  {
    if n < 10 then
      assert [48 + n][..0] == [];
      [48 + n]
    else
      var s := Decimal(n / 10) + [48 + n % 10];
      assert s[..|s| - 1] == Decimal(n / 10);
      s
  }

  /** `append_decimal`: digits are produced last first. */
  method AppendDecimal(out: Buf, n: nat)
    modifies out
    ensures out.data == old(out.data) + Decimal(n)
  {
    if n == 0 {
      out.Append([48]);
      return;
    }
    var tmp: Slice := [];
    var rest := n;
    while rest != 0
      invariant rest != 0 ==> Decimal(rest) + tmp == Decimal(n)
      invariant rest == 0 ==> tmp == Decimal(n)
    {
      tmp := [48 + rest % 10] + tmp;
      assert rest >= 10 ==> Decimal(rest / 10) + tmp == Decimal(rest) + tmp[1..];
      rest := rest / 10;
    }
    out.Append(tmp);
  }

  /** `decimal_len`. */
  method DecimalLen(n: nat) returns (len: nat)
    ensures len == |Decimal(n)|
  {
    len := 1;
    var rest := n;
    while rest >= 10
      invariant |Decimal(n)| == |Decimal(rest)| + len - 1
    {
      rest := rest / 10;
      len := len + 1;
    }
  }

  // ----- MSG -----

  /** A word, a space, and the rest of the line. */
  function Field(a: Slice, rest: Slice): Slice {
    a + ([SPACE] + rest)
  }

  function MsgSize(reply: Slice, payload: Slice): Slice {
    if reply == [] then Decimal(|payload|) else Field(reply, Decimal(|payload|))
  }

  function MsgHeader(m: Msg): Slice {
    Field(MSG_VERB, Field(m.subject, Field(m.sid, MsgSize(m.reply, m.payload))))
  }

  function MsgFrame(m: Msg): Slice {
    MsgHeader(m) + (CRLF + (m.payload + CRLF))
  }

  /** `mb_msg_frame_len_prefixed_with_reply`. */
  method MsgFrameLen(prefixLen: nat, subject: Slice, sid: Slice, reply: Slice, payload: Slice) returns (n: nat)
    ensures forall prefix: Slice :: |prefix| == prefixLen ==> n == |MsgFrame(Msg(prefix + subject, sid, reply, payload))|
  {
    n := 4 + prefixLen + |subject| + 1 + |sid| + 1;
    if |reply| != 0 {
      n := n + |reply| + 1;
    }
    var digits := DecimalLen(|payload|);
    n := n + digits + 2 + |payload| + 2;
  }

  /** Write a word and the space after it, when `after` follows the header. */
  method PutField(out: Buf, word: Slice, ghost rest: Slice, ghost after: Slice, ghost goal: Slice)
    requires out.data + (Field(word, rest) + after) == goal
    modifies out
    ensures out.data + (rest + after) == goal
  {
    Assoc(word, [SPACE] + rest, after);
    Assoc([SPACE], rest, after);
    Put(out, word, [SPACE] + (rest + after), goal);
    Put(out, [SPACE], rest + after, goal);
  }

  /** `mb_write_msg_prefixed_with_reply`. */
  method WriteMsg(out: Buf, prefix: Slice, subject: Slice, sid: Slice, reply: Slice, payload: Slice)
    modifies out
    ensures out.data == old(out.data) + MsgFrame(Msg(prefix + subject, sid, reply, payload))
  {
    ghost var goal := out.data + MsgFrame(Msg(prefix + subject, sid, reply, payload));
    ghost var after := CRLF + (payload + CRLF);
    ghost var tail := Field(sid, MsgSize(reply, payload));
    PutField(out, MSG_VERB, Field(prefix + subject, tail), after, goal);
    Assoc(prefix, subject, [SPACE] + tail);
    Assoc(prefix, Field(subject, tail), after);
    Put(out, prefix, Field(subject, tail) + after, goal);
    PutField(out, subject, tail, after, goal);
    PutField(out, sid, MsgSize(reply, payload), after, goal);
    if |reply| != 0 {
      PutField(out, reply, Decimal(|payload|), after, goal);
    }
    assert out.data + (Decimal(|payload|) + after) == goal;
    Assoc(out.data, Decimal(|payload|), after);
    AppendDecimal(out, |payload|);
    Put(out, CRLF, payload + CRLF, goal);
    Put(out, payload, CRLF, goal);
    out.Append(CRLF);
  }

  /** What a subscriber may be sent: fields the router only accepts when they are valid tokens. */
  predicate Sendable(m: Msg) {
    TokenValid(m.subject) && TokenValid(m.sid) && (m.reply == [] || TokenValid(m.reply)) && |m.payload| <= SIZE_MAX
  }

  /** A client reading one MSG frame off its stream. */
  function DecodeMsg(buf: Slice): Option<(Msg, Slice)> {
    var nl := LineLen(buf);
    if nl == |buf| then None
    else
      var w, body := Words(DropCr(buf[..nl])), buf[nl + 1..];
      if (|w| != 4 && |w| != 5) || w[0] != MSG_VERB then None
      else
        match ParseNat(w[|w| - 1])
        case None => None
        case Some(size) =>
          if |body| < size + 2 || body[size..size + 2] != CRLF then None
          else Some((Msg(w[1], w[2], if |w| == 5 then w[3] else [], body[..size]), body[size + 2..]))
  }

  predicate BlankFree(s: Slice) {
    forall i :: 0 <= i < |s| ==> !Blank(s[i])
  }

  lemma {:induction false} WordEndOf(a: Slice, rest: Slice)
    requires BlankFree(a) && (rest == [] || Blank(rest[0]))
    ensures WordEnd(a + rest) == |a|
  {
    if a == [] {
      assert a + rest == rest;
    } else {
      assert (a + rest)[1..] == a[1..] + rest;
      WordEndOf(a[1..], rest);
    }
  }

  lemma {:induction false} WordsCons(a: Slice, rest: Slice)
    requires a != [] && BlankFree(a)
    ensures Words(Field(a, rest)) == [a] + Words(rest)
  {
    var s := Field(a, rest);
    WordEndOf(a, [SPACE] + rest);
    assert TrimLeft(s) == s;
    assert s[..|a|] == a;
    assert s[|a|..] == [SPACE] + rest;
    assert TrimLeft([SPACE] + rest) == TrimLeft(rest) by { assert ([SPACE] + rest)[1..] == rest; }
  }

  lemma {:induction false} WordsOne(a: Slice)
    requires a != [] && BlankFree(a)
    ensures Words(a) == [a]
  {
    WordEndOf(a, []);
    assert a + [] == a;
    assert TrimLeft(a) == a;
    assert a[..|a|] == a && a[|a|..] == [];
  }

  predicate NoLineEnd(s: Slice) {
    forall i :: 0 <= i < |s| ==> s[i] != NL && s[i] != CR
  }

  lemma {:induction false} FieldNoLineEnd(a: Slice, rest: Slice)
    requires NoLineEnd(a) && NoLineEnd(rest)
    ensures NoLineEnd(Field(a, rest))
  {
  }

  lemma {:induction false} TokenIsWord(t: Slice)
    requires TokenValid(t)
    ensures t != [] && BlankFree(t) && NoLineEnd(t)
  {
  }

  lemma {:induction false} DecimalIsWord(n: nat)
    ensures BlankFree(Decimal(n)) && NoLineEnd(Decimal(n))
  {
    var s := Decimal(n);
    forall i | 0 <= i < |s|
      ensures !Blank(s[i]) && s[i] != NL && s[i] != CR
    {
      assert Digit(s[i]);
    }
  }

  lemma {:induction false} MsgSizeWords(reply: Slice, payload: Slice)
    requires reply == [] || TokenValid(reply)
    ensures Words(MsgSize(reply, payload)) == (if reply == [] then [] else [reply]) + [Decimal(|payload|)]
    ensures NoLineEnd(MsgSize(reply, payload))
  {
    var n := Decimal(|payload|);
    DecimalIsWord(|payload|);
    WordsOne(n);
    if reply != [] {
      TokenIsWord(reply);
      WordsCons(reply, n);
      FieldNoLineEnd(reply, n);
    }
  }

  lemma {:induction false} TwoWords(a: Slice, b: Slice, rest: Slice)
    requires TokenValid(a) && TokenValid(b) && NoLineEnd(rest)
    ensures Words(Field(a, Field(b, rest))) == [a, b] + Words(rest)
    ensures NoLineEnd(Field(a, Field(b, rest)))
  {
    TokenIsWord(a);
    TokenIsWord(b);
    WordsCons(b, rest);
    WordsCons(a, Field(b, rest));
    FieldNoLineEnd(b, rest);
    FieldNoLineEnd(a, Field(b, rest));
  }

  lemma {:induction false} MsgHeaderWords(m: Msg)
    requires Sendable(m)
    ensures Words(MsgHeader(m)) ==
      [MSG_VERB] + ([m.subject, m.sid] + ((if m.reply == [] then [] else [m.reply]) + [Decimal(|m.payload|)]))
    ensures NoLineEnd(MsgHeader(m))
  {
    var size := MsgSize(m.reply, m.payload);
    MsgSizeWords(m.reply, m.payload);
    TwoWords(m.subject, m.sid, size);
    var rest := Field(m.subject, Field(m.sid, size));
    WordsCons(MSG_VERB, rest);
    FieldNoLineEnd(MSG_VERB, rest);
  }

  lemma {:induction false} LineLenOf(line: Slice, rest: Slice)
    requires NL !in line
    ensures LineLen(line + ([NL] + rest)) == |line|
  {
    if line == [] {
      assert line + ([NL] + rest) == [NL] + rest;
    } else {
      assert (line + ([NL] + rest))[1..] == line[1..] + ([NL] + rest);
      LineLenOf(line[1..], rest);
    }
  }

  /** Splitting a buffer at the end of its first line, written CRLF. */
  lemma {:induction false} CrlfLine(line: Slice, body: Slice)
    requires NL !in line
    ensures var buf := line + (CRLF + body);
      LineLen(buf) == |line| + 1 && DropCr(buf[..|line| + 1]) == line && buf[|line| + 2..] == body
  {
    var buf := line + (CRLF + body);
    assert buf == (line + [CR]) + ([NL] + body);
    LineLenOf(line + [CR], body);
    assert buf[..|line| + 1] == line + [CR];
  }

  lemma {:induction false} MsgLines(header: Slice, m: Msg, rest: Slice)
    requires NoLineEnd(header)
    requires var w := Words(header);
      |w| == (if m.reply == [] then 4 else 5) && w[0] == MSG_VERB && w[1] == m.subject && w[2] == m.sid &&
      (m.reply != [] ==> w[3] == m.reply) && ParseNat(w[|w| - 1]) == Some(|m.payload|)
    ensures DecodeMsg(header + (CRLF + (m.payload + (CRLF + rest)))) == Some((m, rest))
  {
    var body, size := m.payload + (CRLF + rest), |m.payload|;
    CrlfLine(header, body);
    BodyParts(m.payload, rest);
  }

  lemma {:induction false} BodyParts(payload: Slice, rest: Slice)
    ensures var body, size := payload + (CRLF + rest), |payload|;
      body[..size] == payload && body[size..size + 2] == CRLF && body[size + 2..] == rest
  {
    var body, size := payload + (CRLF + rest), |payload|;
    assert body[size..size + 2] == [body[size], body[size + 1]];
  }

  lemma {:induction false} MsgFrameLines(m: Msg, rest: Slice)
    ensures MsgFrame(m) + rest == MsgHeader(m) + (CRLF + (m.payload + (CRLF + rest)))
  {
    Assoc(MsgHeader(m), CRLF + (m.payload + CRLF), rest);
    Assoc(CRLF, m.payload + CRLF, rest);
    Assoc(m.payload, CRLF, rest);
  }

  /** One frame read back, whatever follows it on the stream. */
  lemma {:induction false} MsgRoundTrip(m: Msg, rest: Slice)
    requires Sendable(m)
    ensures DecodeMsg(MsgFrame(m) + rest) == Some((m, rest))
  {
    MsgFrameLines(m, rest);
    MsgHeaderWords(m);
    assert ParseNat(Decimal(|m.payload|)) == Some(|m.payload|);
    MsgLines(MsgHeader(m), m, rest);
  }

  /** Any concatenation of MSG frames decodes to the messages that were sent. */
  lemma {:induction false} MsgStreamDecodes(ms: seq<Msg>)
    requires forall m :: m in ms ==> Sendable(m)
    ensures DecodeAll(DecodeMsg, Stream(MsgFrame, ms), |ms|) == Some(ms)
  {
    forall m, rest | m in ms
      ensures DecodeMsg(MsgFrame(m) + rest) == Some((m, rest))
    {
      MsgRoundTrip(m, rest);
    }
    StreamDecodes(MsgFrame, DecodeMsg, ms);
  }

  // ----- JSON strings -----

  const QUOTE: byte := 34
  const BACKSLASH: byte := 92

  function Hex(n: nat): byte
    requires n < 16
  {
    if n < 10 then 48 + n else 87 + n
  }

  /** The escape `append_json_string` writes for one byte. */
  function EscapeByte(c: byte): (e: Slice)
    ensures e != []
  {
    if c == QUOTE || c == BACKSLASH then [BACKSLASH, c]
    else if c == NL then [BACKSLASH, 110]
    else if c == CR then [BACKSLASH, 114]
    else if c == TAB then [BACKSLASH, 116]
    else if c == 8 then [BACKSLASH, 98]
    else if c == 12 then [BACKSLASH, 102]
    else if c < 0x20 then [BACKSLASH, 117, 48, 48, Hex(c / 16), Hex(c % 16)]
    else [c]
  }

  function Escape(s: Slice): Slice {
    if s == [] then [] else EscapeByte(s[0]) + Escape(s[1..])
  }

  /** `json_string_len`. */
  method JsonStringLen(total: nat, s: Slice) returns (n: nat)
    ensures n == total + |Escape(s)|
  {
    n := total;
    assert s[0..] == s;
    for i := 0 to |s|
      invariant n + |Escape(s[i..])| == total + |Escape(s)|
    {
      var c := s[i];
      assert s[i..][1..] == s[i + 1..];
      if c == QUOTE || c == BACKSLASH || c == NL || c == CR || c == TAB || c == 8 || c == 12 {
        n := n + 2;
      } else if c < 0x20 {
        n := n + 6;
      } else {
        n := n + 1;
      }
    }
  }

  /** `append_json_string`. */
  method AppendJsonString(out: Buf, s: Slice)
    modifies out
    ensures out.data == old(out.data) + Escape(s)
  {
    ghost var goal := out.data + Escape(s);
    assert s[0..] == s;
    for i := 0 to |s|
      invariant out.data + Escape(s[i..]) == goal
    {
      assert s[i..][1..] == s[i + 1..];
      Put(out, EscapeByte(s[i]), Escape(s[i + 1..]), goal);
    }
  }

  function HexValue(c: byte): Option<nat> {
    if 48 <= c <= 57 then Some(c - 48) else if 97 <= c <= 102 then Some(c - 87)
    else if 65 <= c <= 70 then Some(c - 55) else None
  }

  /** One character of a JSON string (RFC 8259, section 7), for code points that are one byte: the byte and its width. */
  function UnescapeHead(s: Slice): Option<(byte, nat)>
    requires s != []
  {
    if s[0] != BACKSLASH then Some((s[0], 1))
    else if |s| < 2 then None
    else if s[1] == QUOTE || s[1] == BACKSLASH || s[1] == 47 then Some((s[1], 2))
    else if s[1] == 98 then Some((8, 2))
    else if s[1] == 102 then Some((12, 2))
    else if s[1] == 110 then Some((NL, 2))
    else if s[1] == 114 then Some((CR, 2))
    else if s[1] == 116 then Some((TAB, 2))
    else if s[1] != 117 || |s| < 6 || s[2] != 48 || s[3] != 48 then None
    else
      match (HexValue(s[4]), HexValue(s[5]))
      case (Some(hi), Some(lo)) => Some((16 * hi + lo, 6))
      case _ => None
  }

  /** A JSON string body up to its closing quote, and what follows the quote. */
  function Unescape(s: Slice): Option<(Slice, Slice)>
    decreases |s|
  {
    if s == [] then None
    else if s[0] == QUOTE then Some(([], s[1..]))
    else
      match UnescapeHead(s)
      case None => None
      case Some((c, width)) =>
        if width > |s| then None
        else
          match Unescape(s[width..])
          case None => None
          case Some((t, rest)) => Some(([c] + t, rest))
  }

  lemma {:induction false} UnescapeByte(c: byte, rest: Slice)
    ensures var s := EscapeByte(c) + rest;
      s[0] != QUOTE && UnescapeHead(s) == Some((c, |EscapeByte(c)|)) && s[|EscapeByte(c)|..] == rest
  {
  }

  /** Unescaping an escaped string returns the original bytes. */
  lemma {:induction false} EscapeRoundTrip(s: Slice, rest: Slice)
    ensures Unescape(Escape(s) + ([QUOTE] + rest)) == Some((s, rest))
  {
    if s == [] {
      assert Escape(s) + ([QUOTE] + rest) == [QUOTE] + rest;
    } else {
      var tail := Escape(s[1..]) + ([QUOTE] + rest);
      Assoc(EscapeByte(s[0]), Escape(s[1..]), [QUOTE] + rest);
      UnescapeByte(s[0], tail);
      EscapeRoundTrip(s[1..], rest);
      assert [s[0]] + s[1..] == s;
    }
  }

  lemma {:induction false} EscapeNoLineEnd(s: Slice)
    ensures NoLineEnd(Escape(s))
  {
    if s != [] {
      EscapeNoLineEnd(s[1..]);
    }
  }

  // ----- server-sent events -----

  const EVENT: Slice := [101, 118, 101, 110, 116, 58, 32, 109, 115, 103]  // event: msg
  const DATA: Slice := [100, 97, 116, 97, 58, 32]                         // data:
  const SUBJECT_KEY: Slice := [123, 34, 115, 117, 98, 106, 101, 99, 116, 34, 58, 34]          // {"subject":"
  const PAYLOAD_KEY: Slice := [44, 34, 112, 97, 121, 108, 111, 97, 100, 34, 58, 34]           // ,"payload":"
  const CLOSE: Slice := [125]                                             // }

  predicate HasNul(s: Slice) {
    exists i :: 0 <= i < |s| && s[i] == 0
  }

  datatype Sse = Sse(subject: Slice, payload: Slice)

  function SseJson(m: Sse): Slice {
    SUBJECT_KEY + (Escape(m.subject) + ([QUOTE] + (PAYLOAD_KEY + (Escape(m.payload) + ([QUOTE] + CLOSE)))))
  }

  /** A payload with a NUL byte is dropped: its frame is empty. */
  function SseFrame(m: Sse): Slice {
    if HasNul(m.payload) then [] else EVENT + ([NL] + (DATA + (SseJson(m) + [NL, NL])))
  }

  /** A prefix that needs no escaping, as `$LVC.` does not. */
  predicate Plain(prefix: Slice) {
    forall i :: 0 <= i < |prefix| ==> prefix[i] >= 0x20 && prefix[i] != QUOTE && prefix[i] != BACKSLASH
  }

  lemma {:induction false} EscapePlain(prefix: Slice, s: Slice)
    requires Plain(prefix)
    ensures Escape(prefix + s) == prefix + Escape(s)
  {
    if prefix == [] {
      assert prefix + s == s;
    } else {
      EscapePlain(prefix[1..], s);
      assert (prefix + s)[1..] == prefix[1..] + s;
      Assoc([prefix[0]], prefix[1..], Escape(s));
      assert prefix == [prefix[0]] + prefix[1..];
    }
  }

  method SliceHasNul(s: Slice) returns (b: bool)
    ensures b == HasNul(s)
  {
    for i := 0 to |s|
      invariant !HasNul(s[..i])
    {
      if s[i] == 0 {
        return true;
      }
      assert s[..i + 1] == s[..i] + [s[i]];
    }
    assert s[..|s|] == s;
    b := false;
  }

  /** `sse_msg_len`. */
  method SseMsgLen(prefix: Slice, subject: Slice, payload: Slice) returns (n: nat)
    requires Plain(prefix)
    ensures n == |SseFrame(Sse(prefix + subject, payload))|
  {
    var nul := SliceHasNul(payload);
    if nul {
      return 0;
    }
    EscapePlain(prefix, subject);
    n := |EVENT| + 1 + |DATA| + |SUBJECT_KEY| + 1 + |PAYLOAD_KEY| + 1 + |CLOSE| + 2;
    n := n + |prefix|;
    n := JsonStringLen(n, subject);
    n := JsonStringLen(n, payload);
  }

  /** `sse_write_msg`. */
  method SseWriteMsg(out: Buf, prefix: Slice, subject: Slice, payload: Slice)
    requires Plain(prefix)
    modifies out
    ensures out.data == old(out.data) + SseFrame(Sse(prefix + subject, payload))
  {
    var nul := SliceHasNul(payload);
    if nul {
      return;
    }
    EscapePlain(prefix, subject);
    ghost var goal := out.data + SseFrame(Sse(prefix + subject, payload));
    var end: Slice := [NL, NL];
    var j5 := [QUOTE] + CLOSE;
    ghost var j4 := Escape(payload) + j5;
    ghost var j2 := [QUOTE] + (PAYLOAD_KEY + j4);
    Put(out, EVENT, [NL] + (DATA + (SseJson(Sse(prefix + subject, payload)) + end)), goal);
    Put(out, [NL], DATA + (SseJson(Sse(prefix + subject, payload)) + end), goal);
    Put(out, DATA, SseJson(Sse(prefix + subject, payload)) + end, goal);
    Assoc(SUBJECT_KEY, (prefix + Escape(subject)) + j2, end);
    Put(out, SUBJECT_KEY, ((prefix + Escape(subject)) + j2) + end, goal);
    Assoc(prefix, Escape(subject), j2);
    Assoc(prefix, Escape(subject) + j2, end);
    Put(out, prefix, (Escape(subject) + j2) + end, goal);
    Assoc(Escape(subject), j2, end);
    Assoc(out.data, Escape(subject), j2 + end);
    AppendJsonString(out, subject);
    Assoc([QUOTE], PAYLOAD_KEY + j4, end);
    Put(out, [QUOTE], (PAYLOAD_KEY + j4) + end, goal);
    Assoc(PAYLOAD_KEY, j4, end);
    Put(out, PAYLOAD_KEY, j4 + end, goal);
    Assoc(Escape(payload), j5, end);
    Assoc(out.data, Escape(payload), j5 + end);
    AppendJsonString(out, payload);
    out.Append(j5 + end);
  }

  function StripPrefix(s: Slice, prefix: Slice): Option<Slice> {
    if prefix <= s then Some(s[|prefix|..]) else None
  }

  /** The JSON object a data line carries. */
  function DecodeJson(s: Slice): Option<Sse> {
    match StripPrefix(s, SUBJECT_KEY)
    case None => None
    case Some(s1) =>
      match Unescape(s1)
      case None => None
      case Some((subject, s2)) =>
        match StripPrefix(s2, PAYLOAD_KEY)
        case None => None
        case Some(s3) =>
          match Unescape(s3)
          case None => None
          case Some((payload, s4)) => if s4 == CLOSE then Some(Sse(subject, payload)) else None
  }

  /**
   A client reading one event (WHATWG HTML, section 9.2.6): an event line, a data line, a blank
   line. Frames contain no CR, so LF is the only line end to look for.
   */
  function DecodeSse(buf: Slice): Option<(Sse, Slice)> {
    var n := LineLen(buf);
    if n == |buf| || buf[..n] != EVENT then None
    else
      var buf1 := buf[n + 1..];
      var n1 := LineLen(buf1);
      if n1 == |buf1| || n1 + 1 == |buf1| || buf1[n1 + 1] != NL || !(DATA <= buf1[..n1]) then None
      else
        match DecodeJson(buf1[..n1][|DATA|..])
        case None => None
        case Some(m) => Some((m, buf1[n1 + 2..]))
  }

  lemma {:induction false} JsonRoundTrip(m: Sse)
    ensures DecodeJson(SseJson(m)) == Some(m)
  {
    var s3 := Escape(m.payload) + ([QUOTE] + CLOSE);
    var s2 := PAYLOAD_KEY + s3;
    var s1 := Escape(m.subject) + ([QUOTE] + s2);
    assert StripPrefix(SUBJECT_KEY + s1, SUBJECT_KEY) == Some(s1);
    assert StripPrefix(PAYLOAD_KEY + s3, PAYLOAD_KEY) == Some(s3);
    EscapeRoundTrip(m.subject, s2);
    EscapeRoundTrip(m.payload, CLOSE);
  }

  lemma {:induction false} NoLineEndConcat(a: Slice, b: Slice)
    requires NoLineEnd(a) && NoLineEnd(b)
    ensures NoLineEnd(a + b)
  {
  }

  lemma {:induction false} SseJsonNoLineEnd(m: Sse)
    ensures NoLineEnd(SseJson(m))
  {
    EscapeNoLineEnd(m.subject);
    EscapeNoLineEnd(m.payload);
    var j4 := Escape(m.payload) + ([QUOTE] + CLOSE);
    NoLineEndConcat(Escape(m.payload), [QUOTE] + CLOSE);
    NoLineEndConcat(PAYLOAD_KEY, j4);
    NoLineEndConcat([QUOTE], PAYLOAD_KEY + j4);
    NoLineEndConcat(Escape(m.subject), [QUOTE] + (PAYLOAD_KEY + j4));
    NoLineEndConcat(SUBJECT_KEY, Escape(m.subject) + ([QUOTE] + (PAYLOAD_KEY + j4)));
  }

  /** Splitting a buffer at the end of its first line, written LF. */
  lemma {:induction false} LfLine(line: Slice, body: Slice)
    requires NoLineEnd(line)
    ensures var buf := line + ([NL] + body);
      LineLen(buf) == |line| && buf[..|line|] == line && buf[|line| + 1..] == body
  {
    LineLenOf(line, body);
  }

  lemma {:induction false} SseFrameLines(m: Sse, rest: Slice)
    requires !HasNul(m.payload)
    ensures SseFrame(m) + rest == EVENT + ([NL] + ((DATA + SseJson(m)) + ([NL] + ([NL] + rest))))
  {
    var json := SseJson(m);
    Assoc(EVENT, [NL] + (DATA + (json + [NL, NL])), rest);
    Assoc([NL], DATA + (json + [NL, NL]), rest);
    Assoc(DATA, json + [NL, NL], rest);
    Assoc(json, [NL, NL], rest);
    assert [NL, NL] + rest == [NL] + ([NL] + rest);
    Assoc(DATA, json, [NL] + ([NL] + rest));
  }

  lemma {:induction false} DataLine(json: Slice)
    requires NoLineEnd(json)
    ensures NoLineEnd(DATA + json) && DATA <= DATA + json && (DATA + json)[|DATA|..] == json
  {
  }

  /** One event read back, whatever follows it on the stream. */
  lemma {:induction false} SseRoundTrip(m: Sse, rest: Slice)
    requires !HasNul(m.payload)
    ensures DecodeSse(SseFrame(m) + rest) == Some((m, rest))
  {
    SseJsonNoLineEnd(m);
    DataLine(SseJson(m));
    SseFrameLines(m, rest);
    JsonRoundTrip(m);
    SseEventLines(SseJson(m), m, rest);
  }

  lemma {:induction false} SseEventLines(json: Slice, m: Sse, rest: Slice)
    requires NoLineEnd(json) && DecodeJson(json) == Some(m)
    ensures DecodeSse(EVENT + ([NL] + ((DATA + json) + ([NL] + ([NL] + rest))))) == Some((m, rest))
  {
    DataLine(json);
    var buf1 := (DATA + json) + ([NL] + ([NL] + rest));
    LfLine(EVENT, buf1);
    LfLine(DATA + json, [NL] + rest);
    BlankLine(DATA + json, rest);
  }

  lemma {:induction false} BlankLine(line: Slice, rest: Slice)
    ensures var buf := line + ([NL] + ([NL] + rest));
      buf[|line| + 1] == NL && buf[|line| + 2..] == rest
  {
  }

  /** The events that reach the wire. */
  function Visible(ms: seq<Sse>): (vs: seq<Sse>)
    ensures forall m :: m in vs ==> m in ms && !HasNul(m.payload)
  {
    if ms == [] then [] else (if HasNul(ms[0].payload) then [] else [ms[0]]) + Visible(ms[1..])
  }

  lemma {:induction false} VisibleStream(ms: seq<Sse>)
    ensures Stream(SseFrame, ms) == Stream(SseFrame, Visible(ms))
  {
    if ms != [] {
      VisibleStream(ms[1..]);
      if !HasNul(ms[0].payload) {
        assert Visible(ms)[1..] == Visible(ms[1..]);
      } else {
        assert Visible(ms) == Visible(ms[1..]);
        assert Stream(SseFrame, ms) == [] + Stream(SseFrame, ms[1..]);
      }
    }
  }

  /** Any concatenation of event frames decodes to the messages without a NUL, in order. */
  lemma {:induction false} SseStreamDecodes(ms: seq<Sse>)
    ensures DecodeAll(DecodeSse, Stream(SseFrame, ms), |Visible(ms)|) == Some(Visible(ms))
  {
    VisibleStream(ms);
    forall m, rest | m in Visible(ms)
      ensures DecodeSse(SseFrame(m) + rest) == Some((m, rest))
    {
      SseRoundTrip(m, rest);
    }
    StreamDecodes(SseFrame, DecodeSse, Visible(ms));
  }

  // ----- the text of an event stream -----

  lemma {:induction false} EscapeHigh(s: Slice, k: nat)
    requires k <= |s| && forall j :: 0 <= j < k ==> s[j] >= 0x80
    ensures Escape(s) == s[..k] + Escape(s[k..])
  {
    if k > 0 {
      EscapeHigh(s[1..], k - 1);
      assert s[1..][k - 1..] == s[k..];
      assert s[..k] == [s[0]] + s[1..][..k - 1];
      Assoc([s[0]], s[1..][..k - 1], Escape(s[k..]));
      assert EscapeByte(s[0]) == [s[0]];
    } else {
      assert s[0..] == s;
    }
  }

  /** Escaping keeps the bytes above ASCII at the front; after them comes ASCII or nothing, as before. */
  lemma {:induction false} EscapeFront(s: Slice, k: nat)
    requires k <= |s| && forall j :: 0 <= j < k ==> s[j] >= 0x80
    ensures k <= |Escape(s)| && Escape(s)[..k] == s[..k]
    ensures k == |s| || s[k] < 0x80 ==> k == |Escape(s)| || Escape(s)[k] < 0x80
  {
    EscapeHigh(s, k);
    if k < |s| {
      assert Escape(s[k..]) == EscapeByte(s[k]) + Escape(s[k + 1..]) by { assert s[k..][1..] == s[k + 1..]; }
    }
  }

  lemma {:induction false} SameWidth(s: Slice, t: Slice, n: nat)
    requires 0 < n <= |s| && n <= |t| && s[..n] == t[..n] && s[0] >= 0x80
    requires n < 4 ==> (n == |s| || s[n] < 0x80) && (n == |t| || t[n] < 0x80)
    ensures Utf8.Width(s) == Utf8.Width(t)
  {
    assert forall j :: 0 <= j < n ==> s[j] == s[..n][j] && t[j] == t[..n][j];
  }

  function HighFront(s: Slice): (n: nat)
    ensures n <= |s| && n <= 4
    ensures forall j :: 0 <= j < n ==> s[j] >= 0x80
    ensures n < 4 ==> n == |s| || s[n] < 0x80
  {
    if |s| > 0 && s[0] >= 0x80 then
      if |s| > 1 && s[1] >= 0x80 then
        if |s| > 2 && s[2] >= 0x80 then if |s| > 3 && s[3] >= 0x80 then 4 else 3
        else 2
      else 1
    else 0
  }

  /** Escaping makes no difference to whether a string is text. */
  lemma {:induction false} EscapeUtf8(s: Slice)
    ensures Utf8.WellFormed(Escape(s)) <==> Utf8.WellFormed(s)
    decreases |s|
  {
    if s != [] && s[0] < 0x80 {
      EscapeUtf8(s[1..]);
      Utf8.AsciiFront(EscapeByte(s[0]), Escape(s[1..]));
      Utf8.AsciiFront([s[0]], s[1..]);
      assert s == [s[0]] + s[1..];
    } else if s != [] {
      var n, w := HighFront(s), Utf8.Width(s);
      EscapeFront(s, n);
      SameWidth(s, Escape(s), n);
      if w > 0 {
        assert forall j :: 0 <= j < w ==> s[j] >= 0x80;
        EscapeHigh(s, w);
        assert Escape(s)[w..] == Escape(s[w..]);
        EscapeUtf8(s[w..]);
      }
    }
  }

  predicate TextEvent(m: Sse) {
    Utf8.WellFormed(m.subject) && Utf8.WellFormed(m.payload)
  }

  /** A string of an event, between ASCII and ASCII. */
  lemma {:induction false} StringUtf8(key: Slice, text: Slice, tail: Slice)
    requires Utf8.Ascii(key) && (tail == [] || tail[0] < 0x80)
    ensures Utf8.WellFormed(key + (Escape(text) + tail)) <==> Utf8.WellFormed(text) && Utf8.WellFormed(tail)
  {
    Utf8.AsciiFront(key, Escape(text) + tail);
    Utf8.Split(Escape(text), tail);
    EscapeUtf8(text);
  }

  const EVENT_HEAD: Slice := EVENT + ([NL] + (DATA + SUBJECT_KEY))
  const EVENT_MIDDLE: Slice := [QUOTE] + PAYLOAD_KEY
  const EVENT_END: Slice := [QUOTE] + (CLOSE + [NL, NL])

  lemma {:induction false} TwoStringsUtf8(whole: Slice, head: Slice, a: Slice, middle: Slice, b: Slice, end: Slice, rest: Slice)
    requires Utf8.Ascii(head) && Utf8.Ascii(middle) && Utf8.Ascii(end) && middle != [] && end != []
    requires whole == head + (Escape(a) + (middle + (Escape(b) + (end + rest))))
    ensures Utf8.WellFormed(whole) <==>
      Utf8.WellFormed(a) && Utf8.WellFormed(b) && Utf8.WellFormed(rest)
  {
    Utf8.AsciiFront(end, rest);
    StringUtf8(middle, b, end + rest);
    StringUtf8(head, a, middle + (Escape(b) + (end + rest)));
  }

  lemma {:induction false} EventAscii()
    ensures Utf8.Ascii(EVENT_HEAD) && Utf8.Ascii(EVENT_MIDDLE) && Utf8.Ascii(EVENT_END)
  {
  }

  /** An event is text exactly when its subject and payload are. */
  lemma {:induction false} SseFrameUtf8(m: Sse, rest: Slice)
    requires !HasNul(m.payload)
    ensures Utf8.WellFormed(SseFrame(m) + rest) <==> TextEvent(m) && Utf8.WellFormed(rest)
  {
    SseFrameParts(m, rest);
    EventAscii();
    TwoStringsUtf8(SseFrame(m) + rest, EVENT_HEAD, m.subject, EVENT_MIDDLE, m.payload, EVENT_END, rest);
  }

  lemma {:induction false} SseFrameParts(m: Sse, rest: Slice)
    requires !HasNul(m.payload)
    ensures SseFrame(m) + rest ==
      EVENT_HEAD + (Escape(m.subject) + (EVENT_MIDDLE + (Escape(m.payload) + (EVENT_END + rest))))
  {
    var end := [NL, NL] + rest;
    var j3 := Escape(m.payload) + ([QUOTE] + CLOSE);
    var j1 := Escape(m.subject) + ([QUOTE] + (PAYLOAD_KEY + j3));
    SseFrameTail(m, rest);
    assert [QUOTE] + (CLOSE + end) == EVENT_END + rest;
    Assoc(Escape(m.payload), [QUOTE] + CLOSE, end);
    Assoc([QUOTE], CLOSE, end);
    Assoc(PAYLOAD_KEY, j3, end);
    Assoc([QUOTE], PAYLOAD_KEY + j3, end);
    Assoc([QUOTE], PAYLOAD_KEY, j3 + end);
    Assoc(Escape(m.subject), [QUOTE] + (PAYLOAD_KEY + j3), end);
    Assoc(SUBJECT_KEY, j1, end);
    HeadAssoc(j1 + end);
  }

  lemma {:induction false} SseFrameTail(m: Sse, rest: Slice)
    requires !HasNul(m.payload)
    ensures SseFrame(m) + rest == EVENT + ([NL] + (DATA + (SseJson(m) + ([NL, NL] + rest))))
  {
    var json := SseJson(m);
    Assoc(EVENT, [NL] + (DATA + (json + [NL, NL])), rest);
    Assoc([NL], DATA + (json + [NL, NL]), rest);
    Assoc(DATA, json + [NL, NL], rest);
    Assoc(json, [NL, NL], rest);
  }

  lemma {:induction false} HeadAssoc(s: Slice)
    ensures EVENT + ([NL] + (DATA + (SUBJECT_KEY + s))) == EVENT_HEAD + s
  {
    Assoc(DATA, SUBJECT_KEY, s);
    Assoc([NL], DATA + SUBJECT_KEY, s);
    Assoc(EVENT, [NL] + (DATA + SUBJECT_KEY), s);
  }

  predicate AllText(ms: seq<Sse>) {
    forall i :: 0 <= i < |ms| ==> TextEvent(ms[i])
  }

  lemma {:induction false} AllTextCons(m: Sse, ms: seq<Sse>)
    ensures AllText([m] + ms) <==> TextEvent(m) && AllText(ms)
  {
    assert ([m] + ms)[0] == m;
    assert forall i :: 0 <= i < |ms| ==> ms[i] == ([m] + ms)[i + 1];
  }

  /**
   An event stream is text exactly when all its visible events are, so that decoding it as UTF-8 first
   changes nothing.
   */
  lemma {:induction false} SseStreamUtf8(ms: seq<Sse>)
    ensures Utf8.WellFormed(Stream(SseFrame, ms)) <==> AllText(Visible(ms))
  {
    if ms != [] {
      var m, rest := ms[0], Stream(SseFrame, ms[1..]);
      SseStreamUtf8(ms[1..]);
      if HasNul(m.payload) {
        assert Visible(ms) == Visible(ms[1..]) && SseFrame(m) + rest == rest;
      } else {
        SseFrameUtf8(m, rest);
        AllTextCons(m, Visible(ms[1..]));
      }
    }
  }
}
