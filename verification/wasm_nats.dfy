/**
 * The NATS text protocol as spoken over a WebSocket in the browser build:
 * parsing of an incoming `MSG` frame, the `PUB` and `SUB` frames the client
 * writes, and the connection's connected flag, subscription table and the
 * frames it has handed to the socket.
 *
 * Frames are byte sequences. The parser works on the bytes directly, which is
 * what the lossy UTF-8 decoding yields for an ASCII header; whitespace is the
 * ASCII whitespace that `split_whitespace` recognises.
 */
module WasmNats {
  import opened Wrappers
  import opened Text
  import opened Errors

  /** `usize::MAX` on the 32-bit WebAssembly target. */
  const UsizeMax: nat := 0xFFFF_FFFF

  const Newline: byte := 10
  const CarriageReturn: byte := 13
  const Space: byte := 32
  const Plus: byte := 43

  /** "MSG", "PUB", "SUB" as bytes. */
  const MsgVerb: seq<byte> := [77, 83, 71]
  const PubVerb: seq<byte> := [80, 85, 66]
  const SubVerb: seq<byte> := [83, 85, 66]

  const EmptyMessage := "Empty NATS message"
  const InvalidFormat := "Invalid NATS message format"
  const InvalidSize := "Invalid payload size"
  const NotConnected := "WebSocket NATS not connected"

  // ---------------------------------------------------------------------------
  // Tokenising
  // ---------------------------------------------------------------------------

  /** Tab, line feed, vertical tab, form feed, carriage return, space. */
  predicate IsWs(b: byte) {
    b == 9 || b == 10 || b == 11 || b == 12 || b == 13 || b == 32
  }

  /** A non-empty run of non-whitespace bytes. */
  predicate IsWord(w: seq<byte>) {
    |w| > 0 && forall i :: 0 <= i < |w| ==> !IsWs(w[i])
  }

  predicate AllWords(words: seq<seq<byte>>) {
    forall i :: 0 <= i < |words| ==> IsWord(words[i])
  }

  predicate AllWs(s: seq<byte>) {
    forall i :: 0 <= i < |s| ==> IsWs(s[i])
  }

  /** The length of the word at the front of `s`. */
  function WordLen(s: seq<byte>): (n: nat)
    ensures n <= |s|
    ensures forall i :: 0 <= i < n ==> !IsWs(s[i])
    ensures n < |s| ==> IsWs(s[n])
  {
    if s == [] || IsWs(s[0]) then 0 else 1 + WordLen(s[1..])
  }

  /** `split_whitespace`: the maximal non-whitespace runs of `s`, in order. */
  function Tokens(s: seq<byte>): (ts: seq<seq<byte>>)
    ensures forall i :: 0 <= i < |ts| ==> IsWord(ts[i])
    decreases |s|
  {
    if s == [] then []
    else if IsWs(s[0]) then Tokens(s[1..])
    else
      var n := WordLen(s);
      [s[..n]] + Tokens(s[n..])
  }

  /** The index of the first line feed, if any (`find('\n')`). */
  function FindNewline(s: seq<byte>): (r: Option<nat>)
    ensures r.Some? ==> r.value < |s| && s[r.value] == Newline
    ensures r.Some? ==> forall j :: 0 <= j < r.value ==> s[j] != Newline
    ensures r.None? ==> forall j :: 0 <= j < |s| ==> s[j] != Newline
  {
    if s == [] then None
    else if s[0] == Newline then Some(0)
    else match FindNewline(s[1..])
      case None => None
      case Some(i) => Some(i + 1)
  }

  /**
   * The first line, up to its line feed. A carriage return before the line
   * feed is kept; it is whitespace, so the tokens are those of `lines()[0]`.
   */
  function FirstLine(data: seq<byte>): (line: seq<byte>)
    ensures line <= data
  {
    match FindNewline(data)
    case Some(i) => data[..i]
    case None => data
  }

  /** `find('\n').unwrap_or(0) + 1`. */
  function PayloadStart(data: seq<byte>): (start: nat)
    ensures data != [] ==> 1 <= start <= |data|
    ensures FindNewline(data).Some? ==> data[start - 1] == Newline
  {
    match FindNewline(data)
    case Some(i) => i + 1
    case None => 1
  }

  /** `str::parse::<usize>`: an optional `+`, then one or more decimal digits, at most `usize::MAX`. */
  function ParseUsize(token: seq<byte>): (r: Option<nat>)
    ensures r.Some? ==> r.value <= UsizeMax
  {
    var digits := if |token| > 0 && token[0] == Plus then token[1..] else token;
    var text := Latin1(digits);
    if |text| > 0 && AllDigits(text) && DigitsValue(text) <= UsizeMax then Some(DigitsValue(text)) else None
  }

  // ---------------------------------------------------------------------------
  // MSG parsing
  // ---------------------------------------------------------------------------

  datatype NatsMessage = NatsMessage(subject: seq<byte>, payload: seq<byte>)

  /** What the first line of a `MSG` frame yields: the subject and the declared payload size. */
  datatype MsgHeader = MsgHeader(subject: seq<byte>, size: nat)

  /** The header checks of `parse_nats_message`, in the order it makes them. */
  function ParseHeader(data: seq<byte>): (r: Result<MsgHeader>)
    ensures data == [] ==> r == Err(Custom(EmptyMessage))
    ensures var parts := Tokens(FirstLine(data));
      data != [] && (|parts| < 4 || parts[0] != MsgVerb) ==> r == Err(Custom(InvalidFormat))
    ensures var parts := Tokens(FirstLine(data));
      data != [] && |parts| >= 4 && parts[0] == MsgVerb && ParseUsize(parts[|parts| - 1]).None? ==>
        r == Err(Custom(InvalidSize))
    ensures var parts := Tokens(FirstLine(data));
      data != [] && |parts| >= 4 && parts[0] == MsgVerb && ParseUsize(parts[|parts| - 1]).Some? ==>
        r == Ok(MsgHeader(parts[1], ParseUsize(parts[|parts| - 1]).value))
  {
    if data == [] then Err(Custom(EmptyMessage))
    else
      var parts := Tokens(FirstLine(data));
      if |parts| < 4 || parts[0] != MsgVerb then Err(Custom(InvalidFormat))
      else match ParseUsize(parts[|parts| - 1])
        case None => Err(Custom(InvalidSize))
        case Some(size) => Ok(MsgHeader(parts[1], size))
  }

  function Min(a: nat, b: nat): nat {
    if a <= b then a else b
  }

  /**
   * `parse_nats_message`, with the end of the payload computed without
   * overflow: the payload is what follows the first line feed, cut at the
   * declared size or at the end of the data, whichever comes first.
   */
  function ParseNatsMessage(data: seq<byte>): (r: Result<NatsMessage>)
    ensures r.Ok? <==> ParseHeader(data).Ok?
    ensures r.Err? ==> r.error == ParseHeader(data).error
  {
    match ParseHeader(data)
    case Err(e) => Err(e)
    case Ok(header) =>
      var start := PayloadStart(data);
      Ok(NatsMessage(header.subject, data[start..Min(start + header.size, |data|)]))
  }

  /**
   * A parsed message carries the header's subject, and its payload is the
   * data right after the first line feed, as long as the declared size or as
   * what remains of the data, whichever is shorter.
   */
  lemma ParsedPayload(data: seq<byte>, header: MsgHeader, m: NatsMessage)
    requires ParseHeader(data) == Ok(header) && ParseNatsMessage(data) == Ok(m)
    ensures m.subject == header.subject
    ensures PayloadStart(data) <= |data|
    ensures |m.payload| == Min(header.size, |data| - PayloadStart(data))
    ensures m.payload == data[PayloadStart(data)..PayloadStart(data) + |m.payload|]
  {
    var start := PayloadStart(data);
    var end := Min(start + header.size, |data|);
    assert data != [];
    assert m.payload == data[start..end];
    assert |m.payload| == end - start;
  }

  /** The result of a call that may panic. */
  datatype Outcome<+T> = Returned(result: T) | Panicked

  /**
   * `parse_nats_message` as written: `payload_start + payload_size` is a
   * `usize` addition. When it exceeds `usize::MAX`, a debug build panics on
   * the addition and a release build wraps it to a value below
   * `payload_start`, so that the slice `data[payload_start..payload_end]`
   * panics; either way the call panics.
   */
  function ParseNatsMessageAsWritten(data: seq<byte>): (o: Outcome<Result<NatsMessage>>)
    ensures o.Panicked? <==> ParseHeader(data).Ok? && PayloadStart(data) + ParseHeader(data).value.size > UsizeMax
  {
    match ParseHeader(data)
    case Err(e) => Returned(Err(e))
    case Ok(header) =>
      var start := PayloadStart(data);
      if start + header.size > UsizeMax then Panicked
      else Returned(Ok(NatsMessage(header.subject, data[start..Min(start + header.size, |data|)])))
  }

  /** Where the code as written does not panic, it agrees with the overflow-free parser. */
  lemma AsWrittenAgreesWhenNoOverflow(data: seq<byte>)
    ensures ParseNatsMessageAsWritten(data).Returned? ==> ParseNatsMessageAsWritten(data).result == ParseNatsMessage(data)
  {
  }

  // ---------------------------------------------------------------------------
  // Frames
  // ---------------------------------------------------------------------------

  /** The words of a header, separated by single spaces. */
  function Join(words: seq<seq<byte>>): seq<byte>
  {
    if |words| == 0 then []
    else if |words| == 1 then words[0]
    else words[0] + [Space] + Join(words[1..])
  }

  /** The decimal digits of a size, as bytes. */
  function SizeWord(n: nat): seq<byte> {
    Utf8Encode(NatToString(n))
  }

  /** The words of a `MSG <subject> <sid> [reply-to] <#bytes>` line. */
  function MsgWords(subject: seq<byte>, sid: seq<byte>, replyTo: Option<seq<byte>>, size: nat): seq<seq<byte>> {
    [MsgVerb, subject, sid] + (if replyTo.Some? then [replyTo.value] else []) + [SizeWord(size)]
  }

  /** A `MSG` frame as a NATS server sends it: header line, payload, CRLF. */
  function MsgFrame(subject: seq<byte>, sid: seq<byte>, replyTo: Option<seq<byte>>, payload: seq<byte>): seq<byte> {
    Join(MsgWords(subject, sid, replyTo, |payload|)) + [CarriageReturn, Newline] + (payload + [CarriageReturn, Newline])
  }

  /**
   * `format!("PUB {} {}\r\n", subject, data.len())` as bytes, then the data and
   * CRLF: the words `PUB`, the subject and the data length separated by single
   * spaces, the line's CRLF, the data, and a closing CRLF.
   */
  function PubFrame(subject: string, data: seq<byte>): (frame: seq<byte>)
    ensures frame == Join([PubVerb, Utf8Encode(subject), SizeWord(|data|)]) + [CarriageReturn, Newline]
      + (data + [CarriageReturn, Newline])
  {
    VerbBytes();
    CommandLineBytes("PUB ", PubVerb, subject, NatToString(|data|));
    Utf8Encode("PUB " + subject + " " + NatToString(|data|) + "\r\n") + data + [CarriageReturn, Newline]
  }

  /**
   * `format!("SUB {} {}\r\n", subject, subject)` as bytes: the words `SUB` and
   * the subject twice (it doubles as the subscription id), then CRLF.
   */
  function SubFrame(subject: string): (frame: seq<byte>)
    ensures frame == Join([SubVerb, Utf8Encode(subject), Utf8Encode(subject)]) + [CarriageReturn, Newline]
  {
    VerbBytes();
    CommandLineBytes("SUB ", SubVerb, subject, subject);
    Utf8Encode("SUB " + subject + " " + subject + "\r\n")
  }

  lemma VerbBytes()
    ensures Utf8Encode("PUB ") == PubVerb + [Space]
    ensures Utf8Encode("SUB ") == SubVerb + [Space]
  {
    Utf8EncodeAscii("PUB ");
    Utf8EncodeAscii("SUB ");
  }

  /** A command line `{verb} {a} {b}\r\n` is its three words joined by single spaces, then CRLF. */
  lemma CommandLineBytes(head: string, verb: seq<byte>, a: string, b: string)
    requires Utf8Encode(head) == verb + [Space]
    ensures Utf8Encode(head + a + " " + b + "\r\n") == Join([verb, Utf8Encode(a), Utf8Encode(b)]) + [CarriageReturn, Newline]
  {
    CommandLineParts(head, a, b);
    JoinThree(verb, Utf8Encode(a), Utf8Encode(b));
  }

  /** The UTF-8 bytes of `{head}{a} {b}\r\n`, part by part. */
  lemma CommandLineParts(head: string, a: string, b: string)
    ensures Utf8Encode(head + a + " " + b + "\r\n")
      == Utf8Encode(head) + Utf8Encode(a) + [Space] + Utf8Encode(b) + [CarriageReturn, Newline]
  {
    Utf8EncodeAscii(" ");
    Utf8EncodeAscii("\r\n");
    assert Utf8Encode(" ") == [Space];
    assert Utf8Encode("\r\n") == [CarriageReturn, Newline];
    Utf8EncodeConcat(head + a + " " + b, "\r\n");
    Utf8EncodeConcat(head + a + " ", b);
    Utf8EncodeConcat(head + a, " ");
    Utf8EncodeConcat(head, a);
  }

  lemma JoinThree(v: seq<byte>, a: seq<byte>, b: seq<byte>)
    ensures Join([v, a, b]) == v + [Space] + a + [Space] + b
  {
    var words := [v, a, b];
    assert Join(words[1..]) == a + [Space] + b;
    assert Join(words) == v + [Space] + (a + [Space] + b);
  }

  // ---------------------------------------------------------------------------
  // Lemmas about tokens and frames
  // ---------------------------------------------------------------------------

  lemma {:induction false} TokensAllWs(s: seq<byte>)
    requires AllWs(s)
    ensures Tokens(s) == []
    decreases |s|
  {
    if s != [] {
      TokensAllWs(s[1..]);
    }
  }

  lemma {:induction false} WordLenOfWord(w: seq<byte>, rest: seq<byte>)
    requires IsWord(w)
    requires rest == [] || IsWs(rest[0])
    ensures WordLen(w + rest) == |w|
    decreases |w|
  {
    if |w| > 1 {
      WordLenOfWord(w[1..], rest);
      assert (w + rest)[1..] == w[1..] + rest;
    } else {
      assert (w + rest)[1..] == rest;
    }
  }

  /** A word followed by whitespace (or nothing) is the first token. */
  lemma TokensWordThen(w: seq<byte>, rest: seq<byte>)
    requires IsWord(w)
    requires rest == [] || IsWs(rest[0])
    ensures Tokens(w + rest) == [w] + Tokens(rest)
  {
    WordLenOfWord(w, rest);
    assert (w + rest)[..|w|] == w;
    assert (w + rest)[|w|..] == rest;
  }

  /** Splitting space-joined words, followed by any whitespace, gives the words back. */
  lemma {:induction false} TokensJoin(words: seq<seq<byte>>, tail: seq<byte>)
    requires AllWords(words)
    requires AllWs(tail)
    ensures Tokens(Join(words) + tail) == words
    decreases |words|
  {
    if |words| == 0 {
      assert Join(words) + tail == tail;
      TokensAllWs(tail);
    } else if |words| == 1 {
      TokensAllWs(tail);
      TokensWordThen(words[0], tail);
    } else {
      var rest := Join(words[1..]) + tail;
      TokensJoin(words[1..], tail);
      assert Join(words) + tail == words[0] + ([Space] + rest);
      TokensWordThen(words[0], [Space] + rest);
      assert ([Space] + rest)[1..] == rest;
    }
  }

  lemma {:induction false} JoinHasNoNewline(words: seq<seq<byte>>)
    requires AllWords(words)
    ensures forall j :: 0 <= j < |Join(words)| ==> Join(words)[j] != Newline
    decreases |words|
  {
    if |words| > 1 {
      JoinHasNoNewline(words[1..]);
      var w := words[0];
      assert Join(words) == w + [Space] + Join(words[1..]);
      forall j | 0 <= j < |Join(words)| ensures Join(words)[j] != Newline {
        if j < |w| {
          assert Join(words)[j] == w[j];
        } else if j > |w| {
          assert Join(words)[j] == Join(words[1..])[j - |w| - 1];
        }
      }
    }
  }

  /**
   * A header line of joined words ends at its CRLF: its tokens are the words,
   * and the payload starts right after it.
   */
  lemma LineTokens(words: seq<seq<byte>>, rest: seq<byte>, data: seq<byte>)
    requires AllWords(words)
    requires data == Join(words) + [CarriageReturn, Newline] + rest
    ensures Tokens(FirstLine(data)) == words
    ensures PayloadStart(data) == |Join(words)| + 2
  {
    HeaderLine(words, rest, data);
    TokensJoin(words, [CarriageReturn]);
  }

  lemma HeaderLine(words: seq<seq<byte>>, rest: seq<byte>, data: seq<byte>)
    requires AllWords(words)
    requires data == Join(words) + [CarriageReturn, Newline] + rest
    ensures FirstLine(data) == Join(words) + [CarriageReturn]
    ensures PayloadStart(data) == |Join(words)| + 2
  {
    var head := Join(words);
    JoinHasNoNewline(words);
    assert data[|head| + 1] == Newline;
    assert forall j :: 0 <= j <= |head| ==> data[j] != Newline by {
      forall j | 0 <= j <= |head| ensures data[j] != Newline {
        if j < |head| {
          assert data[j] == head[j];
        }
      }
    }
    assert FindNewline(data) == Some(|head| + 1);
    assert data[..|head| + 1] == head + [CarriageReturn];
  }

  lemma DigitsAreAscii(s: string)
    requires AllDigits(s)
    ensures IsAscii(s)
  {
  }

  /** The size word is a word, and `parse::<usize>` reads it back. */
  lemma SizeWordParses(n: nat)
    requires n <= UsizeMax
    ensures IsWord(SizeWord(n))
    ensures ParseUsize(SizeWord(n)) == Some(n)
  {
    var s := NatToString(n);
    DigitsAreAscii(s);
    Utf8EncodeAscii(s);
    Latin1OfAscii(s);
    DigitsValueOfNatToString(n);
    assert SizeWord(n)[0] != Plus;
  }

  /** The words of a `MSG` line: `MSG` first, at least four of them, and a readable size last. */
  predicate MsgLine(words: seq<seq<byte>>, size: nat) {
    AllWords(words) && |words| >= 4 && words[0] == MsgVerb && ParseUsize(words[|words| - 1]) == Some(size)
  }

  lemma MsgWordsAreWords(subject: seq<byte>, sid: seq<byte>, replyTo: Option<seq<byte>>, size: nat)
    requires IsWord(subject) && IsWord(sid) && (replyTo.Some? ==> IsWord(replyTo.value))
    requires size <= UsizeMax
    ensures MsgLine(MsgWords(subject, sid, replyTo, size), size)
    ensures MsgWords(subject, sid, replyTo, size)[1] == subject
  {
    SizeWordParses(size);
    MsgLineWords(subject, sid, replyTo, SizeWord(size), size);
  }

  /** The same, for any last word that reads as the size. */
  lemma MsgLineWords(subject: seq<byte>, sid: seq<byte>, replyTo: Option<seq<byte>>, last: seq<byte>, size: nat)
    requires IsWord(subject) && IsWord(sid) && (replyTo.Some? ==> IsWord(replyTo.value))
    requires IsWord(last) && ParseUsize(last) == Some(size)
    ensures var words := [MsgVerb, subject, sid] + (if replyTo.Some? then [replyTo.value] else []) + [last];
      MsgLine(words, size) && words[1] == subject
  {
    match replyTo {
      case None =>
        assert [MsgVerb, subject, sid] + [] + [last] == [MsgVerb, subject, sid, last];
        MsgLineOfFour(subject, sid, last, size);
      case Some(r) =>
        assert [MsgVerb, subject, sid] + [r] + [last] == [MsgVerb, subject, sid, r, last];
        MsgLineOfFive(subject, sid, r, last, size);
    }
  }

  lemma MsgLineOfFour(a: seq<byte>, b: seq<byte>, last: seq<byte>, size: nat)
    requires IsWord(a) && IsWord(b) && IsWord(last) && ParseUsize(last) == Some(size)
    ensures MsgLine([MsgVerb, a, b, last], size)
  {
    VerbsAreWords();
  }

  lemma MsgLineOfFive(a: seq<byte>, b: seq<byte>, c: seq<byte>, last: seq<byte>, size: nat)
    requires IsWord(a) && IsWord(b) && IsWord(c) && IsWord(last) && ParseUsize(last) == Some(size)
    ensures MsgLine([MsgVerb, a, b, c, last], size)
  {
    VerbsAreWords();
  }

  /** The header checks pass on a frame whose first line is a well-formed `MSG` line. */
  lemma HeaderOfMsgLine(words: seq<seq<byte>>, rest: seq<byte>, size: nat, data: seq<byte>)
    requires MsgLine(words, size)
    requires data == Join(words) + [CarriageReturn, Newline] + rest
    ensures ParseHeader(data) == Ok(MsgHeader(words[1], size))
    ensures PayloadStart(data) == |Join(words)| + 2
  {
    LineTokens(words, rest, data);
    assert |data| >= 2;
    HeaderFromTokens(data, words, size);
  }

  /** The header checks pass when the first line has at least four tokens, `MSG` first and a size last. */
  lemma HeaderFromTokens(data: seq<byte>, parts: seq<seq<byte>>, size: nat)
    requires data != [] && Tokens(FirstLine(data)) == parts
    requires |parts| >= 4 && parts[0] == MsgVerb
    requires ParseUsize(parts[|parts| - 1]) == Some(size)
    ensures ParseHeader(data) == Ok(MsgHeader(parts[1], size))
  {
  }

  /** Once the header checks pass, the payload is the data after the first line, cut at the size. */
  lemma ParseAfterHeader(data: seq<byte>, header: MsgHeader, start: nat, payload: seq<byte>)
    requires ParseHeader(data) == Ok(header)
    requires PayloadStart(data) == start && start <= |data|
    requires payload == data[start..Min(start + header.size, |data|)]
    ensures ParseNatsMessage(data) == Ok(NatsMessage(header.subject, payload))
  {
    var end := Min(start + header.size, |data|);
    assert ParseNatsMessage(data) == Ok(NatsMessage(header.subject, data[start..end]));
  }

  /** What follows a line, cut at `size` or at the end, is the same slice of the whole frame. */
  lemma PayloadAfterLine(line: seq<byte>, rest: seq<byte>, size: nat, data: seq<byte>, payload: seq<byte>, start: nat)
    requires data == line + rest && start == |line|
    requires payload == rest[..Min(size, |rest|)]
    ensures start <= |data| && payload == data[start..Min(start + size, |data|)]
  {
    assert Min(start + size, |data|) == start + Min(size, |rest|);
  }

  /** A frame with a well-formed `MSG` line parses to its subject and what follows the line, cut at the size. */
  lemma ParseOfMsgLine(words: seq<seq<byte>>, rest: seq<byte>, size: nat, data: seq<byte>, payload: seq<byte>)
    requires MsgLine(words, size)
    requires data == Join(words) + [CarriageReturn, Newline] + rest
    requires payload == rest[..Min(size, |rest|)]
    ensures ParseNatsMessage(data) == Ok(NatsMessage(words[1], payload))
  {
    var start := |Join(words)| + 2;
    HeaderOfMsgLine(words, rest, size, data);
    PayloadAfterLine(Join(words) + [CarriageReturn, Newline], rest, size, data, payload, start);
    ParseAfterHeader(data, MsgHeader(words[1], size), start, payload);
  }

  /**
   * Round trip: a `MSG` frame with a whitespace-free subject, an sid, an
   * optional reply-to, and the payload's own length as its size parses back
   * to that subject and payload (the reply-to is skipped).
   */
  lemma MsgFrameRoundTrip(subject: seq<byte>, sid: seq<byte>, replyTo: Option<seq<byte>>, payload: seq<byte>)
    requires IsWord(subject) && IsWord(sid) && (replyTo.Some? ==> IsWord(replyTo.value))
    requires |payload| <= UsizeMax
    ensures ParseNatsMessage(MsgFrame(subject, sid, replyTo, payload)) == Ok(NatsMessage(subject, payload))
  {
    var words := MsgWords(subject, sid, replyTo, |payload|);
    var rest := payload + [CarriageReturn, Newline];
    MsgWordsAreWords(subject, sid, replyTo, |payload|);
    assert rest[..Min(|payload|, |rest|)] == payload;
    ParseOfMsgLine(words, rest, |payload|, MsgFrame(subject, sid, replyTo, payload), payload);
  }

  /** b"test.subject", b"hello" and the frame `MSG test.subject 1 5\r\nhello\r\n`. */
  const TestSubject: seq<byte> := [116, 101, 115, 116, 46, 115, 117, 98, 106, 101, 99, 116]
  const Hello: seq<byte> := [104, 101, 108, 108, 111]
  const HelloFrame: seq<byte> := [77, 83, 71, 32] + TestSubject + [32, 49, 32, 53, 13, 10] + Hello + [13, 10]

  /** The frame of the parsing example yields subject `test.subject` and payload `hello`. */
  lemma ParsesHelloFrame()
    ensures ParseNatsMessage(HelloFrame) == Ok(NatsMessage(TestSubject, Hello))
  {
    HelloFrameIsMsgFrame();
    assert IsWord(TestSubject);
    assert IsWord([49]);
    MsgFrameRoundTrip(TestSubject, [49], None, Hello);
  }

  lemma HelloFrameIsMsgFrame()
    ensures HelloFrame == MsgFrame(TestSubject, [49], None, Hello)
  {
    assert NatToString(5) == "5";
    assert SizeWord(5) == [53];
    assert IsWord(TestSubject);
    assert IsWord([49]);
    var words := MsgWords(TestSubject, [49], None, 5);
    assert words == [MsgVerb, TestSubject, [49], [53]];
    assert Join(words[2..]) == [49] + [Space] + [53];
    assert Join(words[1..]) == TestSubject + [Space] + Join(words[2..]);
    assert Join(words) == MsgVerb + [Space] + Join(words[1..]);
  }

  /**
   * A frame that is only a well-formed `MSG` line: the overflow-free parser
   * returns the subject and an empty payload, and the code as written panics
   * exactly when the frame's length plus the declared size exceeds `usize::MAX`.
   */
  lemma HeaderOnlyFrame(subject: seq<byte>, sid: seq<byte>, replyTo: Option<seq<byte>>, size: nat, data: seq<byte>)
    requires IsWord(subject) && IsWord(sid) && (replyTo.Some? ==> IsWord(replyTo.value))
    requires size <= UsizeMax
    requires data == Join(MsgWords(subject, sid, replyTo, size)) + [CarriageReturn, Newline]
    ensures ParseNatsMessage(data) == Ok(NatsMessage(subject, []))
    ensures ParseNatsMessageAsWritten(data).Panicked? <==> |data| + size > UsizeMax
  {
    var words := MsgWords(subject, sid, replyTo, size);
    MsgWordsAreWords(subject, sid, replyTo, size);
    assert data == Join(words) + [CarriageReturn, Newline] + [];
    HeaderOfMsgLine(words, [], size, data);
    ParseOfMsgLine(words, [], size, data, []);
  }

  /** The header `MSG a 1 4294967295\r\n`, declaring `usize::MAX` bytes and carrying none. */
  const OversizedFrame: seq<byte> := Join(MsgWords([97], [49], None, UsizeMax)) + [CarriageReturn, Newline]

  /** On that header the code as written panics, while the overflow-free parser returns an empty payload. */
  lemma OversizedSizePanicsAsWritten()
    ensures ParseNatsMessageAsWritten(OversizedFrame).Panicked?
    ensures ParseNatsMessage(OversizedFrame) == Ok(NatsMessage([97], []))
  {
    HeaderOnlyFrame([97], [49], None, UsizeMax, OversizedFrame);
  }

  /**
   * The `PUB` frame is laid out as the protocol requires: read with the same
   * tokeniser, its first line is `PUB`, the subject and the data length, and
   * the data follows the line feed.
   */
  lemma PubFrameLayout(subject: string, data: seq<byte>, frame: seq<byte>)
    requires IsWord(Utf8Encode(subject))
    requires |data| <= UsizeMax
    requires frame == PubFrame(subject, data)
    ensures Tokens(FirstLine(frame)) == [PubVerb, Utf8Encode(subject), SizeWord(|data|)]
    ensures ParseUsize(SizeWord(|data|)) == Some(|data|)
    ensures PayloadStart(frame) + |data| + 2 == |frame|
    ensures frame[PayloadStart(frame)..PayloadStart(frame) + |data|] == data
  {
    var words := [PubVerb, Utf8Encode(subject), SizeWord(|data|)];
    SizeWordParses(|data|);
    VerbsAreWords();
    ThreeWords(PubVerb, Utf8Encode(subject), SizeWord(|data|));
    LineThenData(words, data, frame);
  }

  lemma VerbsAreWords()
    ensures IsWord(MsgVerb) && IsWord(PubVerb) && IsWord(SubVerb)
  {
  }

  lemma ThreeWords(a: seq<byte>, b: seq<byte>, c: seq<byte>)
    requires IsWord(a) && IsWord(b) && IsWord(c)
    ensures AllWords([a, b, c])
  {
  }

  /** A frame made of a header line of joined words, then data and CRLF: the line's tokens, then the data. */
  lemma LineThenData(words: seq<seq<byte>>, data: seq<byte>, frame: seq<byte>)
    requires AllWords(words)
    requires frame == Join(words) + [CarriageReturn, Newline] + (data + [CarriageReturn, Newline])
    ensures Tokens(FirstLine(frame)) == words
    ensures PayloadStart(frame) + |data| + 2 == |frame|
    ensures frame[PayloadStart(frame)..PayloadStart(frame) + |data|] == data
  {
    var line := Join(words) + [CarriageReturn, Newline];
    var rest := data + [CarriageReturn, Newline];
    LineTokens(words, rest, frame);
    PayloadAfterLine(line, rest, |data|, frame, data, |line|);
  }

  /**
   * The `SUB` frame is one line: read with the same tokeniser it is `SUB`, the
   * subject and the subject again, and it ends at its line feed.
   */
  lemma SubFrameLayout(subject: string, frame: seq<byte>)
    requires IsWord(Utf8Encode(subject))
    requires frame == SubFrame(subject)
    ensures Tokens(FirstLine(frame)) == [SubVerb, Utf8Encode(subject), Utf8Encode(subject)]
    ensures PayloadStart(frame) == |frame|
  {
    var words := [SubVerb, Utf8Encode(subject), Utf8Encode(subject)];
    VerbsAreWords();
    ThreeWords(SubVerb, Utf8Encode(subject), Utf8Encode(subject));
    assert frame == Join(words) + [CarriageReturn, Newline] + [];
    LineTokens(words, [], frame);
  }

  // ---------------------------------------------------------------------------
  // The connection
  // ---------------------------------------------------------------------------

  class WasmNatsConnection {
    /** Set by the socket's open event, cleared by its close event. */
    var connected: bool
    /** Subject to the channel (the sender half) that receives its messages. */
    var subscriptions: map<string, nat>
    /** The identity the next channel gets. */
    var nextChannel: nat
    /** The frames handed to the socket, oldest first. */
    var sent: seq<seq<byte>>

    /** Every channel in the table was handed out before `nextChannel`. */
    ghost predicate Valid()
      reads this
    {
      forall s :: s in subscriptions ==> subscriptions[s] < nextChannel
    }

    constructor ()
      ensures Valid()
      ensures !connected && subscriptions == map[] && nextChannel == 0 && sent == []
    {
      connected := false;
      subscriptions := map[];
      nextChannel := 0;
      sent := [];
    }

    /** The open event. */
    method OnOpen()
      requires Valid()
      modifies this
      ensures Valid()
      ensures connected
      ensures subscriptions == old(subscriptions) && nextChannel == old(nextChannel) && sent == old(sent)
    {
      connected := true;
    }

    /** The close event. */
    method OnClose()
      requires Valid()
      modifies this
      ensures Valid()
      ensures !connected
      ensures subscriptions == old(subscriptions) && nextChannel == old(nextChannel) && sent == old(sent)
    {
      connected := false;
    }

    /**
     * `publish`: fails without sending when not connected; otherwise sends
     * the `PUB` frame, and a socket failure (`sendError`) is reported with its text.
     */
    method Publish(subject: string, data: seq<byte>, sendError: Option<string>) returns (r: Result<()>)
      requires Valid()
      modifies this
      ensures Valid()
      ensures connected == old(connected) && subscriptions == old(subscriptions) && nextChannel == old(nextChannel)
      ensures !old(connected) ==> r == Err(Custom(NotConnected)) && sent == old(sent)
      ensures old(connected) && sendError.Some? ==>
        r == Err(Custom("Failed to send WebSocket message: " + sendError.value)) && sent == old(sent)
      ensures old(connected) && sendError.None? ==> r == Ok(()) && sent == old(sent) + [PubFrame(subject, data)]
    {
      if !connected {
        return Err(Custom(NotConnected));
      }
      var frame := PubFrame(subject, data);
      if sendError.Some? {
        return Err(Custom("Failed to send WebSocket message: " + sendError.value));
      }
      sent := sent + [frame];
      r := Ok(());
    }

    /**
     * `subscribe`: fails without change when not connected; otherwise installs
     * a fresh channel for the subject (replacing an earlier one) before sending
     * the `SUB` frame, so the subscription stays even when the send fails.
     */
    method Subscribe(subject: string, sendError: Option<string>) returns (r: Result<nat>)
      requires Valid()
      modifies this
      ensures Valid()
      ensures connected == old(connected)
      ensures !old(connected) ==>
        r == Err(Custom(NotConnected))
        && subscriptions == old(subscriptions) && nextChannel == old(nextChannel) && sent == old(sent)
      ensures old(connected) ==>
        subscriptions == old(subscriptions)[subject := old(nextChannel)] && nextChannel == old(nextChannel) + 1
      ensures old(connected) ==> forall s :: s in subscriptions && s != subject ==> subscriptions[s] != subscriptions[subject]
      ensures old(connected) && sendError.Some? ==>
        r == Err(Custom("Failed to send subscribe command: " + sendError.value)) && sent == old(sent)
      ensures old(connected) && sendError.None? ==> r == Ok(old(nextChannel)) && sent == old(sent) + [SubFrame(subject)]
    {
      if !connected {
        return Err(Custom(NotConnected));
      }
      var channel := nextChannel;
      subscriptions := subscriptions[subject := channel];
      nextChannel := nextChannel + 1;
      if sendError.Some? {
        return Err(Custom("Failed to send subscribe command: " + sendError.value));
      }
      sent := sent + [SubFrame(subject)];
      r := Ok(channel);
    }
  }

  // ---------------------------------------------------------------------------
  // Scenarios on a fresh connection
  // ---------------------------------------------------------------------------

  /**
   * Publishing before the socket opens fails and sends nothing; after it
   * opens, one publish sends exactly one `PUB` frame.
   */
  method PublishScenario(subject: string, data: seq<byte>)
    returns (early: Result<()>, late: Result<()>, frames: seq<seq<byte>>)
    ensures early == Err(Custom(NotConnected))
    ensures late == Ok(())
    ensures frames == [PubFrame(subject, data)]
  {
    var connection := new WasmNatsConnection();
    early := connection.Publish(subject, data, None);
    connection.OnOpen();
    late := connection.Publish(subject, data, None);
    frames := connection.sent;
  }

  /**
   * Subscribing twice to one subject keeps one entry, pointing at the newer
   * channel; a failed send still leaves the subscription installed.
   */
  method ResubscribeScenario(subject: string, failure: string)
    returns (first: Result<nat>, second: Result<nat>, table: map<string, nat>, frames: seq<seq<byte>>)
    ensures first == Ok(0)
    ensures second == Err(Custom("Failed to send subscribe command: " + failure))
    ensures table == map[subject := 1]
    ensures frames == [SubFrame(subject)]
  {
    var connection := new WasmNatsConnection();
    connection.OnOpen();
    first := connection.Subscribe(subject, None);
    second := connection.Subscribe(subject, Some(failure));
    table := connection.subscriptions;
    frames := connection.sent;
  }
}
