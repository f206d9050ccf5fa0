/**
 The client parser `mb_parse_client_op` (`src/proto.c`). It works with cursors on slices and is
 proved against a definition on the words of the control line.
 */
module Wire {
  import opened Bytes
  import opened Receive
  import opened Subjects

  const SIZE_MAX: nat := 0xffff_ffff_ffff_ffff

  // ----- words of a line -----

  predicate Blank(c: byte) {
    c == SPACE || c == TAB
  }

  function TrimLeft(s: Slice): (t: Slice)
    ensures |t| <= |s|
    ensures t != [] ==> !Blank(t[0])
  {
    if s != [] && Blank(s[0]) then TrimLeft(s[1..]) else s
  }

  function TrimRight(s: Slice): (t: Slice)
    ensures |t| <= |s|
    ensures s != [] && !Blank(s[0]) ==> t != [] && t[0] == s[0]
  {
    if s != [] && Blank(s[|s| - 1]) then TrimRight(s[..|s| - 1]) else s
  }

  function Trim(s: Slice): (t: Slice)
    ensures |t| <= |s|
    ensures t != [] ==> !Blank(t[0])
  {
    TrimRight(TrimLeft(s))
  }

  function WordEnd(s: Slice): (n: nat)
    ensures n <= |s|
    ensures s != [] && !Blank(s[0]) ==> n > 0
  {
    if s == [] || Blank(s[0]) then 0 else 1 + WordEnd(s[1..])
  }

  function Words(s: Slice): seq<Slice>
    decreases |s|
  {
    var t := TrimLeft(s);
    if t == [] then [] else [t[..WordEnd(t)]] + Words(t[WordEnd(t)..])
  }

  /** What follows the first word, without surrounding blanks. */
  function AfterWord(s: Slice): Slice {
    Trim(Trim(s)[WordEnd(Trim(s))..])
  }

  lemma {:induction false} TrimLeftSnoc(s: Slice, b: byte)
    requires Blank(b)
    ensures TrimLeft(s + [b]) == if TrimLeft(s) == [] then [] else TrimLeft(s) + [b]
  {
    if s == [] {
      assert s + [b] == [b] && [b][1..] == [];
    } else if Blank(s[0]) {
      assert (s + [b])[1..] == s[1..] + [b];
      TrimLeftSnoc(s[1..], b);
    }
  }

  lemma {:induction false} WordEndSnoc(s: Slice, b: byte)
    requires Blank(b)
    ensures WordEnd(s + [b]) == WordEnd(s)
  {
    if s != [] && !Blank(s[0]) {
      assert (s + [b])[1..] == s[1..] + [b];
      WordEndSnoc(s[1..], b);
    }
  }

  lemma {:induction false} WordsSnoc(s: Slice, b: byte)
    requires Blank(b)
    ensures Words(s + [b]) == Words(s)
    decreases |s|
  {
    TrimLeftSnoc(s, b);
    var t := TrimLeft(s);
    if t != [] {
      WordEndSnoc(t, b);
      var n := WordEnd(t);
      assert (t + [b])[..n] == t[..n];
      assert (t + [b])[n..] == t[n..] + [b];
      WordsSnoc(t[n..], b);
    }
  }

  lemma {:induction false} WordsTrimRight(s: Slice)
    ensures Words(TrimRight(s)) == Words(s)
  {
    if s != [] && Blank(s[|s| - 1]) {
      WordsTrimRight(s[..|s| - 1]);
      WordsSnoc(s[..|s| - 1], s[|s| - 1]);
      assert s == s[..|s| - 1] + [s[|s| - 1]];
    }
  }

  lemma {:induction false} TrimLeftIdem(s: Slice)
    ensures TrimLeft(TrimLeft(s)) == TrimLeft(s)
  {
  }

  lemma {:induction false} WordsTrim(s: Slice)
    ensures Words(Trim(s)) == Words(s)
  {
    WordsTrimRight(TrimLeft(s));
    TrimLeftIdem(s);
  }

  // ----- numbers -----

  predicate Digit(c: byte) {
    48 <= c <= 57
  }

  predicate Digits(s: Slice) {
    forall i :: 0 <= i < |s| ==> Digit(s[i])
  }

  function DecimalValue(s: Slice): nat
    requires Digits(s)
  {
    if s == [] then 0 else 10 * DecimalValue(s[..|s| - 1]) + (s[|s| - 1] - 48)
  }

  /** A nonempty run of digits whose value fits a `size_t`. */
  function ParseNat(s: Slice): Option<nat> {
    if s != [] && Digits(s) && DecimalValue(s) <= SIZE_MAX then Some(DecimalValue(s)) else None
  }

  lemma {:induction false} DecimalPrefix(s: Slice, n: nat)
    requires Digits(s) && n <= |s|
    ensures DecimalValue(s[..n]) <= DecimalValue(s)
  {
    if n < |s| {
      DecimalPrefix(s[..|s| - 1], n);
      assert s[..|s| - 1][..n] == s[..n];
    } else {
      assert s[..n] == s;
    }
  }

  /** `parse_usize`: the per-digit overflow test rejects exactly the values above `SIZE_MAX`. */
  method ParseUsize(s: Slice) returns (r: Option<nat>)
    ensures r == ParseNat(s)
  {
    if |s| == 0 {
      return None;
    }
    var v: nat := 0;
    for i := 0 to |s|
      invariant Digits(s[..i]) && v == DecimalValue(s[..i]) && v <= SIZE_MAX
    {
      if !Digit(s[i]) {
        return None;
      }
      assert s[..i + 1][..i] == s[..i] && s[..i + 1][i] == s[i];
      var digit := s[i] - 48;
      if v > (SIZE_MAX - digit) / 10 {
        if Digits(s) { DecimalPrefix(s, i + 1); }
        return None;
      }
      v := v * 10 + digit;
    }
    assert s[..|s|] == s;
    r := Some(v);
  }

  // ----- the reference parser -----

  function ToUpper(c: byte): byte {
    if 97 <= c <= 122 then c - 32 else c
  }

  predicate IsVerb(word: Slice, verb: Slice) {
    |word| == |verb| && forall i :: 0 <= i < |word| ==> ToUpper(word[i]) == verb[i]
  }

  const PING: Slice := [80, 73, 78, 71]
  const CONNECT: Slice := [67, 79, 78, 78, 69, 67, 84]
  const SUB: Slice := [83, 85, 66]
  const UNSUB: Slice := [85, 78, 83, 85, 66]
  const PUB: Slice := [80, 85, 66]

  function DropCr(line: Slice): Slice {
    if line != [] && line[|line| - 1] == CR then line[..|line| - 1] else line
  }

  function SubResult(subject: Slice, queue: Slice, sid: Slice, consumed: nat): ParseResult {
    if SubjectValid(subject, true) && TokenValid(sid) && (queue == [] || TokenValid(queue))
    then Ok(Sub(subject, queue, sid), consumed) else InvalidArgs
  }

  function UnsubResult(sid: Slice, max: Option<Slice>, consumed: nat): ParseResult {
    if !TokenValid(sid) then InvalidArgs
    else if max == None then Ok(Unsub(sid, None), consumed)
    else if ParseNat(max.value) == None then InvalidArgs
    else Ok(Unsub(sid, ParseNat(max.value)), consumed)
  }

  /** The payload block after the line: `size` bytes, then LF or CRLF. */
  function PubBody(subject: Slice, reply: Slice, size: nat, body: Slice, lineEnd: nat): ParseResult {
    if |body| <= size then NeedMore
    else if body[size] == NL then Ok(Pub(subject, reply, body[..size]), lineEnd + size + 1)
    else if body[size] != CR then Malformed
    else if |body| < size + 2 then NeedMore
    else if body[size + 1] != NL then Malformed
    else Ok(Pub(subject, reply, body[..size]), lineEnd + size + 2)
  }

  function PubResult(subject: Slice, reply: Slice, sizeWord: Slice, body: Slice, lineEnd: nat): ParseResult {
    match ParseNat(sizeWord)
    case None => InvalidArgs
    case Some(size) =>
      if !SubjectValid(subject, false) || (reply != [] && !SubjectValid(reply, false)) then InvalidArgs
      else if size > MAX_PAYLOAD then PayloadTooLarge
      else PubBody(subject, reply, size, body, lineEnd)
  }

  datatype Verb = VPing | VConnect | VSub | VUnsub | VPub | VOther

  function VerbOf(word: Slice): Verb {
    if IsVerb(word, PING) then VPing
    else if IsVerb(word, CONNECT) then VConnect
    else if IsVerb(word, SUB) then VSub
    else if IsVerb(word, UNSUB) then VUnsub
    else if IsVerb(word, PUB) then VPub
    else VOther
  }

  /** The operation with these words, the verb among them; `text` is what follows the verb. */
  function ParseWords(verb: Verb, w: seq<Slice>, text: Slice, body: Slice, lineEnd: nat): ParseResult {
    match verb
    case VPing => if |w| == 1 then Ok(Ping, lineEnd) else InvalidArgs
    case VConnect => Ok(Connect(text), lineEnd)
    case VSub =>
      if |w| == 3 then SubResult(w[1], [], w[2], lineEnd)
      else if |w| == 4 then SubResult(w[1], w[2], w[3], lineEnd)
      else InvalidArgs
    case VUnsub =>
      if |w| == 2 then UnsubResult(w[1], None, lineEnd)
      else if |w| == 3 then UnsubResult(w[1], Some(w[2]), lineEnd)
      else InvalidArgs
    case VPub =>
      if |w| == 3 then PubResult(w[1], [], w[2], body, lineEnd)
      else if |w| == 4 then PubResult(w[1], w[2], w[3], body, lineEnd)
      else InvalidArgs
    case VOther => Unknown
  }

  /** A complete control line and what follows it. */
  function ParseLine(line: Slice, body: Slice, lineEnd: nat): ParseResult {
    if Words(line) == [] then Malformed
    else ParseWords(VerbOf(Words(line)[0]), Words(line), AfterWord(line), body, lineEnd)
  }

  function Parse(buf: Slice): ParseResult {
    ParseWith(ParseLine, buf)
  }

  /** Find the line; `parseLine` is given it, what follows it, and where that starts. */
  function ParseWith(parseLine: (Slice, Slice, nat) -> ParseResult, buf: Slice): ParseResult {
    var nl := LineLen(buf);
    if nl > MAX_CONTROL_LINE then ControlLineTooLong
    else if nl == |buf| then NeedMore
    else parseLine(DropCr(buf[..nl]), buf[nl + 1..], nl + 1)
  }

  // ----- the code -----

  /** `trim_spaces`. */
  method TrimSpaces(s: Slice) returns (t: Slice)
    ensures t == Trim(s)
  {
    t := s;
    while |t| > 0 && Blank(t[0])
      invariant TrimLeft(t) == TrimLeft(s)
    {
      t := t[1..];
    }
    ghost var l := t;
    while |t| > 0 && Blank(t[|t| - 1])
      invariant TrimRight(t) == TrimRight(l)
    {
      t := t[..|t| - 1];
    }
  }

  /** `next_token`. */
  method NextToken(rest: Slice) returns (ok: bool, tok: Slice, rest': Slice)
    ensures ok <==> Words(rest) != []
    ensures ok ==> tok == Words(rest)[0] && Words(rest') == Words(rest)[1..]
    ensures ok ==> rest' == Trim(rest)[WordEnd(Trim(rest))..]
    ensures !ok ==> tok == []
  {
    var t := TrimSpaces(rest);
    WordsTrim(rest);
    if |t| == 0 {
      return false, [], t;
    }
    var i := 0;
    while i < |t| && !Blank(t[i])
      invariant 0 <= i <= |t|
      invariant WordEnd(t) == i + WordEnd(t[i..])
    {
      assert t[i..][1..] == t[i + 1..];
      i := i + 1;
    }
    assert TrimLeft(t) == t;
    ok, tok, rest' := true, t[..i], t[i..];
  }

  /** `eq_upper`. */
  method EqUpper(s: Slice, verb: Slice) returns (b: bool)
    ensures b == IsVerb(s, verb)
  {
    if |s| != |verb| {
      return false;
    }
    for i := 0 to |s|
      invariant forall j :: 0 <= j < i ==> ToUpper(s[j]) == verb[j]
    {
      if ToUpper(s[i]) != verb[i] {
        return false;
      }
    }
    b := true;
  }

  /** The two- or three-argument shape shared by SUB and PUB. */
  method TakeArgs(rest: Slice) returns (ok: bool, first: Slice, middle: Slice, last: Slice)
    ensures ok <==> |Words(rest)| == 2 || |Words(rest)| == 3
    ensures ok && |Words(rest)| == 2 ==> first == Words(rest)[0] && middle == [] && last == Words(rest)[1]
    ensures ok && |Words(rest)| == 3 ==> first == Words(rest)[0] && middle == Words(rest)[1] && last == Words(rest)[2]
  {
    first, middle, last := [], [], [];
    var okFirst, subject, rest1 := NextToken(rest);
    if !okFirst {
      return false, [], [], [];
    }
    var okSecond, second, rest2 := NextToken(rest1);
    if !okSecond {
      return false, [], [], [];
    }
    var okThird, third, rest3 := NextToken(rest2);
    if !okThird {
      return true, subject, [], second;
    }
    var extra, _, _ := NextToken(rest3);
    return !extra, subject, second, third;
  }

  method ParseSub(rest: Slice, consumed: nat, ghost w: seq<Slice>) returns (r: ParseResult)
    requires |w| > 0 && Words(rest) == w[1..]
    ensures r == if |w| == 3 then SubResult(w[1], [], w[2], consumed)
                 else if |w| == 4 then SubResult(w[1], w[2], w[3], consumed)
                 else InvalidArgs
  {
    var ok, subject, queue, sid := TakeArgs(rest);
    if !ok {
      return InvalidArgs;
    }
    var vs := CheckSubjectValid(subject, true);
    var vi := CheckTokenValid(sid);
    var vq := CheckTokenValid(queue);
    if !vs || !vi || (|queue| != 0 && !vq) {
      return InvalidArgs;
    }
    r := Ok(Sub(subject, queue, sid), consumed);
  }

  method ParseUnsub(rest: Slice, consumed: nat, ghost w: seq<Slice>) returns (r: ParseResult)
    requires |w| > 0 && Words(rest) == w[1..]
    ensures r == if |w| == 2 then UnsubResult(w[1], None, consumed)
                 else if |w| == 3 then UnsubResult(w[1], Some(w[2]), consumed)
                 else InvalidArgs
  {
    var ok, sid, rest1 := NextToken(rest);
    if !ok {
      return InvalidArgs;
    }
    var vi := CheckTokenValid(sid);
    if !vi {
      return InvalidArgs;
    }
    var max: Option<nat> := None;
    var hasMax, word, rest2 := NextToken(rest1);
    if hasMax {
      max := ParseUsize(word);
      if max == None {
        return InvalidArgs;
      }
      var extra, _, _ := NextToken(rest2);
      if extra {
        return InvalidArgs;
      }
    }
    r := Ok(Unsub(sid, max), consumed);
  }

  method ParsePub(buf: Slice, rest: Slice, lineEnd: nat, ghost w: seq<Slice>) returns (r: ParseResult)
    requires |w| > 0 && Words(rest) == w[1..] && lineEnd <= |buf|
    ensures r == if |w| == 3 then PubResult(w[1], [], w[2], buf[lineEnd..], lineEnd)
                 else if |w| == 4 then PubResult(w[1], w[2], w[3], buf[lineEnd..], lineEnd)
                 else InvalidArgs
  {
    var ok, subject, reply, sizeWord := TakeArgs(rest);
    if !ok {
      return InvalidArgs;
    }
    var size := ParseUsize(sizeWord);
    if size == None {
      return InvalidArgs;
    }
    var vs := CheckSubjectValid(subject, false);
    if !vs {
      return InvalidArgs;
    }
    var vr := CheckSubjectValid(reply, false);
    if |reply| != 0 && !vr {
      return InvalidArgs;
    }
    var n := size.value;
    if n > MAX_PAYLOAD {
      return PayloadTooLarge;
    }
    var available := |buf| - lineEnd;
    if available <= n {
      return NeedMore;
    }
    var tail := lineEnd + n;
    assert buf[lineEnd..][n] == buf[tail] && buf[lineEnd..][..n] == buf[lineEnd..tail];
    var trailer: nat;
    if buf[tail] == NL {
      trailer := 1;
    } else if buf[tail] == CR {
      if available - n < 2 {
        return NeedMore;
      }
      if buf[tail + 1] != NL {
        return Malformed;
      }
      trailer := 2;
    } else {
      return Malformed;
    }
    r := Ok(Pub(subject, reply, buf[lineEnd..tail]), lineEnd + n + trailer);
  }

  /** The blank-trimmed line has the same words and the same text after its verb. */
  lemma {:induction false} TrimmedLine(line: Slice)
    ensures Words(Trim(line)) == Words(line) && Trim(Trim(line)) == Trim(line)
    ensures AfterWord(Trim(line)) == AfterWord(line)
  {
    WordsTrim(line);
    var t := Trim(line);
    assert TrimLeft(t) == t;
    TrimRightIdem(TrimLeft(line));
  }

  lemma {:induction false} TrimRightIdem(s: Slice)
    ensures TrimRight(TrimRight(s)) == TrimRight(s)
  {
    if s != [] && Blank(s[|s| - 1]) {
      TrimRightIdem(s[..|s| - 1]);
    }
  }

  /** The verb dispatch of `mb_parse_client_op`. */
  method ParseVerb(buf: Slice, verb: Slice, rest: Slice, lineEnd: nat, ghost w: seq<Slice>) returns (r: ParseResult)
    requires |w| > 0 && w[0] == verb && Words(rest) == w[1..] && lineEnd <= |buf|
    ensures r == ParseWords(VerbOf(verb), w, Trim(rest), buf[lineEnd..], lineEnd)
  {
    var isPing := EqUpper(verb, PING);
    if isPing {
      var more, _, _ := NextToken(rest);
      return if more then InvalidArgs else Ok(Ping, lineEnd);
    }
    var isConnect := EqUpper(verb, CONNECT);
    if isConnect {
      var text := TrimSpaces(rest);
      return Ok(Connect(text), lineEnd);
    }
    var isSub := EqUpper(verb, SUB);
    if isSub {
      r := ParseSub(rest, lineEnd, w);
      return;
    }
    var isUnsub := EqUpper(verb, UNSUB);
    if isUnsub {
      r := ParseUnsub(rest, lineEnd, w);
      return;
    }
    var isPub := EqUpper(verb, PUB);
    if isPub {
      r := ParsePub(buf, rest, lineEnd, w);
      return;
    }
    r := Unknown;
  }

  /** `mb_parse_client_op`. */
  method ParseClientOp(buf: Slice) returns (r: ParseResult)
    ensures r == Parse(buf)
  {
    var nl := 0;
    assert buf[0..] == buf;
    while nl < |buf| && buf[nl] != NL
      invariant 0 <= nl <= |buf|
      invariant LineLen(buf) == nl + LineLen(buf[nl..])
    {
      assert buf[nl..][1..] == buf[nl + 1..];
      nl := nl + 1;
    }
    if nl == |buf| {
      return if |buf| > MAX_CONTROL_LINE then ControlLineTooLong else NeedMore;
    }
    if nl > MAX_CONTROL_LINE {
      return ControlLineTooLong;
    }
    r := ParseControlLine(buf, nl);
  }

  /** The part of `mb_parse_client_op` that follows the search for the line end. */
  method ParseControlLine(buf: Slice, nl: nat) returns (r: ParseResult)
    requires nl < |buf|
    ensures r == ParseLine(DropCr(buf[..nl]), buf[nl + 1..], nl + 1)
  {
    var lineEnd := nl + 1;
    var trimmed := nl;
    if trimmed > 0 && buf[trimmed - 1] == CR {
      trimmed := trimmed - 1;
    }
    ghost var full := DropCr(buf[..nl]);
    assert full == buf[..trimmed];
    var line := TrimSpaces(buf[..trimmed]);
    TrimmedLine(full);
    var ok, verb, rest := NextToken(line);
    if !ok {
      return Malformed;
    }
    r := ParseVerb(buf, verb, rest, lineEnd, Words(full));
  }

  // ----- what the reference parser takes -----

  /** A verb may be written in either case, letter by letter. */
  lemma {:induction false} VerbAnyCase(word: Slice, verb: Slice)
    requires forall i :: 0 <= i < |verb| ==> 65 <= verb[i] <= 90
    ensures IsVerb(word, verb) <==> |word| == |verb| && forall i :: 0 <= i < |word| ==> word[i] == verb[i] || word[i] == verb[i] + 32
  {
    if |word| == |verb| {
      forall i | 0 <= i < |word|
        ensures ToUpper(word[i]) == verb[i] <==> word[i] == verb[i] || word[i] == verb[i] + 32
      {
      }
    }
  }

  lemma {:induction false} WordEndAt(word: Slice, sep: byte, rest: Slice)
    requires (sep == SPACE || sep == TAB) && SPACE !in word && TAB !in word
    ensures WordEnd(word + ([sep] + rest)) == |word|
  {
    if word == [] {
      assert word + ([sep] + rest) == [sep] + rest;
    } else {
      assert (word + ([sep] + rest))[1..] == word[1..] + ([sep] + rest);
      WordEndAt(word[1..], sep, rest);
    }
  }

  /** A space or a tab ends a word, and does not matter before one. */
  lemma {:induction false} Separators(word: Slice, sep: byte, rest: Slice)
    requires sep == SPACE || sep == TAB
    ensures Words([sep] + rest) == Words(rest)
    ensures word != [] && SPACE !in word && TAB !in word ==> Words(word + ([sep] + rest)) == [word] + Words(rest)
  {
    assert ([sep] + rest)[1..] == rest;
    assert TrimLeft([sep] + rest) == TrimLeft(rest);
    if word != [] && SPACE !in word && TAB !in word {
      var s := word + ([sep] + rest);
      WordEndAt(word, sep, rest);
      assert TrimLeft(s) == s && s[..|word|] == word && s[|word|..] == [sep] + rest;
    }
  }

  /** A number is a nonempty string of the digits 0 to 9 that stays in range, read from left to right. */
  lemma {:induction false} NumberMeans(s: Slice, p: seq<nat>)
    requires |p| == |s| + 1 && p[0] == 0 && forall i :: 0 <= i < |s| && 48 <= s[i] <= 57 ==> p[i + 1] == 10 * p[i] + (s[i] - 48)
    ensures ParseNat(s) ==
      if s != [] && (forall i :: 0 <= i < |s| ==> 48 <= s[i] <= 57) && p[|s|] <= SIZE_MAX then Some(p[|s|]) else None
  {
    if Digits(s) {
      ValueMeans(s, p);
    }
  }

  lemma {:induction false} ValueMeans(s: Slice, p: seq<nat>)
    requires Digits(s) && |p| == |s| + 1 && p[0] == 0 && forall i :: 0 <= i < |s| ==> p[i + 1] == 10 * p[i] + (s[i] - 48)
    ensures DecimalValue(s) == p[|s|]
  {
    if s != [] {
      ValueMeans(s[..|s| - 1], p[..|s|]);
    }
  }

  // ----- a decided prefix stays decided -----

  lemma {:induction false} PubBodyAppend(subject: Slice, reply: Slice, size: nat, body: Slice, lineEnd: nat, more: Slice)
    requires PubBody(subject, reply, size, body, lineEnd) != NeedMore
    ensures PubBody(subject, reply, size, body + more, lineEnd) == PubBody(subject, reply, size, body, lineEnd)
  {
    assert (body + more)[..size] == body[..size];
  }

  lemma {:induction false} ParseWordsAppend(verb: Verb, w: seq<Slice>, text: Slice, body: Slice, lineEnd: nat, more: Slice)
    requires ParseWords(verb, w, text, body, lineEnd) != NeedMore
    ensures ParseWords(verb, w, text, body + more, lineEnd) == ParseWords(verb, w, text, body, lineEnd)
  {
    if verb == VPub && (|w| == 3 || |w| == 4) {
      var reply, size := if |w| == 4 then w[2] else [], ParseNat(w[|w| - 1]);
      if size.Some? && PubBody(w[1], reply, size.value, body, lineEnd) != NeedMore {
        PubBodyAppend(w[1], reply, size.value, body, lineEnd, more);
      }
    }
  }

  lemma {:induction false} ParseLineAppend(line: Slice, body: Slice, lineEnd: nat, more: Slice)
    requires ParseLine(line, body, lineEnd) != NeedMore
    ensures ParseLine(line, body + more, lineEnd) == ParseLine(line, body, lineEnd)
  {
    if Words(line) != [] {
      ParseWordsAppend(VerbOf(Words(line)[0]), Words(line), AfterWord(line), body, lineEnd, more);
    }
  }

  lemma {:induction false} StableWith(parseLine: (Slice, Slice, nat) -> ParseResult, buf: Slice, more: Slice)
    requires forall line, body, end :: parseLine(line, body, end) != NeedMore ==> parseLine(line, body + more, end) == parseLine(line, body, end)
    requires ParseWith(parseLine, buf) != NeedMore
    ensures ParseWith(parseLine, buf + more) == ParseWith(parseLine, buf)
  {
    var nl := LineLen(buf);
    LineLenAppend(buf, more);
    if nl <= MAX_CONTROL_LINE {
      assert (buf + more)[..nl] == buf[..nl];
      assert (buf + more)[nl + 1..] == buf[nl + 1..] + more;
    }
  }

  /** Every parse result other than NEED_MORE is unchanged by further bytes. */
  lemma {:induction false} ParseStable(buf: Slice, more: Slice)
    requires Parse(buf) != NeedMore
    ensures Parse(buf + more) == Parse(buf)
  {
    forall line, body, end | ParseLine(line, body, end) != NeedMore
      ensures ParseLine(line, body + more, end) == ParseLine(line, body, end)
    {
      ParseLineAppend(line, body, end, more);
    }
    StableWith(ParseLine, buf, more);
  }

  lemma {:induction false} PubBodyBounds(subject: Slice, reply: Slice, size: nat, body: Slice, lineEnd: nat)
    ensures var r := PubBody(subject, reply, size, body, lineEnd);
      (r.Ok? ==> lineEnd < r.consumed <= lineEnd + |body|) && (r == NeedMore ==> |body| <= size + 1)
  {
  }

  lemma {:induction false} ParseWordsBounds(verb: Verb, w: seq<Slice>, text: Slice, body: Slice, lineEnd: nat)
    ensures var r := ParseWords(verb, w, text, body, lineEnd);
      (r.Ok? ==> lineEnd <= r.consumed <= lineEnd + |body|) && (r == NeedMore ==> |body| <= MAX_PAYLOAD + 1)
  {
    if verb == VPub && (|w| == 3 || |w| == 4) && ParseNat(w[|w| - 1]).Some? {
      PubBodyBounds(w[1], if |w| == 4 then w[2] else [], ParseNat(w[|w| - 1]).value, body, lineEnd);
    }
  }

  /** A successful parse consumes a nonempty prefix; an undecided buffer is short of the receive cap. */
  lemma {:induction false} ParseBounds(buf: Slice)
    ensures Parse(buf).Ok? ==> 0 < Parse(buf).consumed <= |buf|
    ensures Parse(buf) == NeedMore ==> |buf| < MAX_RX
    ensures Parse(buf) in {Unknown, InvalidArgs} ==> LineLen(buf) < |buf|
  {
    var nl := LineLen(buf);
    if nl < |buf| {
      ParseLineBounds(DropCr(buf[..nl]), buf[nl + 1..], nl + 1);
    }
  }

  lemma {:induction false} ParseLineBounds(line: Slice, body: Slice, lineEnd: nat)
    ensures var r := ParseLine(line, body, lineEnd);
      (r.Ok? ==> lineEnd <= r.consumed <= lineEnd + |body|) && (r == NeedMore ==> |body| <= MAX_PAYLOAD + 1)
  {
    if Words(line) != [] {
      ParseWordsBounds(VerbOf(Words(line)[0]), Words(line), AfterWord(line), body, lineEnd);
    }
  }

  /** `Parse` is what the receive loop needs a parser to be. */
  lemma {:induction false} ParseIncremental()
    ensures Receive.Incremental(Parse)
  {
    forall buf: Slice
      ensures Receive.Sound(Parse(buf), buf)
    {
      ParseBounds(buf);
    }
    forall buf: Slice, more: Slice | Parse(buf) != NeedMore
      ensures Parse(buf + more) == Parse(buf)
    {
      ParseStable(buf, more);
    }
  }

  /** However a client byte stream is split into reads, the connection handles the same operations and errors. */
  lemma {:induction false} ClientSplitsAgree(chunks: seq<Slice>, chunks': seq<Slice>, stops: Receive.Closes)
    requires Receive.Concat(chunks) == Receive.Concat(chunks')
    ensures Receive.Incremental(Parse)
    ensures Receive.Same(Receive.Feed(Parse, Receive.START, chunks, stops), Receive.Feed(Parse, Receive.START, chunks', stops))
  {
    ParseIncremental();
    Receive.SplitsAgree(Parse, chunks, chunks', stops);
  }
}
