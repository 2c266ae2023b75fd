/**
 The base protocol framing of pkg/lsp/client.go: a Content-Length header block
 followed by the payload. Every character stands for one byte.
 */
module Framing {
  import opened Wrappers
  import opened Text
  import opened Sequences

  /** The errors of the reader, and the panic of make for a length that no slice can have. */
  datatype FrameError =
    | MakePanics
    | EndOfInput
    | MalformedHeader
    | InvalidLength
    | NegativeLength
    | MissingLength

  datatype Decoded = Message(payload: string, rest: string) | Failed(error: FrameError)

  /** The most that make allocates for a slice of bytes, with addresses of 48 bits. */
  const MAX_ALLOC: int := 0x1_0000_0000_0000

  /** A payload is a slice, and no longer than one can be. */
  predicate IsPayload(payload: string) {
    |payload| <= MAX_ALLOC
  }

  function Frame(payload: string): string {
    "Content-Length: " + Decimal(|payload|) + "\r\n\r\n" + payload
  }

  function FramesBy(frame: string -> string, payloads: seq<string>): string {
    if payloads == [] then "" else frame(payloads[0]) + FramesBy(frame, payloads[1..])
  }

  function Frames(payloads: seq<string>): string {
    FramesBy(Frame, payloads)
  }

  /** strings.TrimRight(line, "\r\n"). */
  function TrimLineEnd(line: string): string {
    if line != "" && (line[|line| - 1] == '\r' || line[|line| - 1] == '\n') then TrimLineEnd(line[..|line| - 1])
    else line
  }

  /** The white space of strings.TrimSpace beyond one byte, as UTF-8 encodes it. */
  const WIDE_SPACES: seq<string> := [
    "\U{C2}\U{85}", "\U{C2}\U{A0}", "\U{E1}\U{9A}\U{80}", "\U{E2}\U{80}\U{80}", "\U{E2}\U{80}\U{81}",
    "\U{E2}\U{80}\U{82}", "\U{E2}\U{80}\U{83}", "\U{E2}\U{80}\U{84}", "\U{E2}\U{80}\U{85}", "\U{E2}\U{80}\U{86}",
    "\U{E2}\U{80}\U{87}", "\U{E2}\U{80}\U{88}", "\U{E2}\U{80}\U{89}", "\U{E2}\U{80}\U{8A}", "\U{E2}\U{80}\U{A8}",
    "\U{E2}\U{80}\U{A9}", "\U{E2}\U{80}\U{AF}", "\U{E2}\U{81}\U{9F}", "\U{E3}\U{80}\U{80}"
  ]

  predicate IsByteSpace(c: char) {
    '\t' <= c <= '\r' || c == ' '
  }

  predicate Ascii(s: string) {
    forall i :: 0 <= i < |s| ==> s[i] < '\U{80}'
  }

  /** The length of one of these white spaces at the front of the bytes, or zero. */
  function WideAtFront(s: string, spaces: seq<string>): (n: nat)
    ensures n <= |s|
  {
    if spaces == [] then 0 else if spaces[0] <= s then |spaces[0]| else WideAtFront(s, spaces[1..])
  }

  function WideAtEnd(s: string, spaces: seq<string>): (n: nat)
    ensures n <= |s|
  {
    if spaces == [] then 0 else if HasSuffix(s, spaces[0]) then |spaces[0]| else WideAtEnd(s, spaces[1..])
  }

  function TrimBytesLeft(s: string): string {
    if s != "" && IsByteSpace(s[0]) then TrimBytesLeft(s[1..])
    else if WideAtFront(s, WIDE_SPACES) > 0 then TrimBytesLeft(s[WideAtFront(s, WIDE_SPACES)..])
    else s
  }

  function TrimBytesRight(s: string): string {
    if s != "" && IsByteSpace(s[|s| - 1]) then TrimBytesRight(s[..|s| - 1])
    else if WideAtEnd(s, WIDE_SPACES) > 0 then TrimBytesRight(s[..|s| - WideAtEnd(s, WIDE_SPACES)])
    else s
  }

  /** strings.TrimSpace on a string of bytes. */
  function TrimBytes(s: string): string {
    TrimBytesRight(TrimBytesLeft(s))
  }

  lemma AsciiParts(s: string, part: string)
    requires Ascii(s)
    ensures part <= s || HasSuffix(s, part) ==> Ascii(part)
  {
    if HasSuffix(s, part) {
      assert forall i :: 0 <= i < |part| ==> part[i] == s[|s| - |part| + i];
    }
  }

  lemma {:induction false} NothingWide(s: string, spaces: seq<string>)
    requires Ascii(s) && forall k :: 0 <= k < |spaces| ==> spaces[k] != "" && !Ascii(spaces[k])
    ensures WideAtFront(s, spaces) == WideAtEnd(s, spaces) == 0
  {
    if spaces != [] {
      AsciiParts(s, spaces[0]);
      NothingWide(s, spaces[1..]);
    }
  }

  lemma WideSpacesAreWide()
    ensures forall k :: 0 <= k < |WIDE_SPACES| ==> WIDE_SPACES[k] != "" && !Ascii(WIDE_SPACES[k])
  {
    forall k | 0 <= k < |WIDE_SPACES| ensures WIDE_SPACES[k] != "" && !Ascii(WIDE_SPACES[k]) {
      assert WIDE_SPACES[k][0] >= '\U{80}';
    }
  }

  lemma TrimBytesOfTrimmed(s: string)
    requires Ascii(s) && (s == "" || (!IsByteSpace(s[0]) && !IsByteSpace(s[|s| - 1])))
    ensures TrimBytes(s) == s
  {
    WideSpacesAreWide();
    NothingWide(s, WIDE_SPACES);
  }

  datatype HeaderField = Length(length: nat) | Other | Bad(error: FrameError)

  /** What one header line, without its line end, says. */
  function ParseField(trimmed: string): HeaderField {
    var colon := IndexOf(trimmed, ':');
    if colon == |trimmed| then Bad(MalformedHeader)
    else
      var name := TrimBytes(ToLower(trimmed[..colon]));
      if name != "content-length" then Other
      else
        match ParseInt64(TrimBytes(trimmed[colon + 1..]))
        case None => Bad(InvalidLength)
        case Some(n) => if n < 0 then Bad(NegativeLength) else Length(n)
  }

  datatype Headers = Headers(length: int, rest: string) | BadHeaders(error: FrameError)

  /** The header block at the front of the input; the last Content-Length wins. */
  function ReadHeaders(input: string, length: int): Headers
    decreases |input|
  {
    var eol := IndexOf(input, '\n');
    if eol == |input| then BadHeaders(EndOfInput)
    else
      var trimmed := TrimLineEnd(input[..eol + 1]);
      if trimmed == "" then Headers(length, input[eol + 1..])
      else
        match ParseField(trimmed)
        case Bad(error) => BadHeaders(error)
        case Other => ReadHeaders(input[eol + 1..], length)
        case Length(n) => ReadHeaders(input[eol + 1..], n)
  }

  function ReadMessage(input: string): Decoded {
    ReadPayload(ReadHeaders(input, -1))
  }

  function ReadPayload(headers: Headers): Decoded {
    match headers
    case BadHeaders(error) => Failed(error)
    case Headers(length, rest) =>
      if length < 0 then Failed(MissingLength)
      else if length > MAX_ALLOC then Failed(MakePanics)
      else if |rest| < length then Failed(EndOfInput)
      else Message(rest[..length], rest[length..])
  }

  /** The bytes a connection has written so far. */
  class FrameWriter {
    var written: string

    constructor ()
      ensures written == ""
    {
      written := "";
    }

    /** What the connection takes of these bytes, when it takes so many before it fails. */
    method WriteBytes(bytes: string, takes: nat) returns (ok: bool)
      modifies this
      ensures written == old(written) + FirstOf(bytes, takes) && ok == (|bytes| <= takes)
    {
      written := written + FirstOf(bytes, takes);
      ok := |bytes| <= takes;
    }

    /** Header, payload and flush; each may fail, and what was taken before stays on the wire. */
    method WriteLSPMessage(payload: string, takes: nat, flushed: bool) returns (ok: bool)
      modifies this
      ensures written == old(written) + FirstOf(Frame(payload), takes)
      ensures ok == (|Frame(payload)| <= takes && flushed)
    {
      var header := "Content-Length: " + Decimal(|payload|) + "\r\n\r\n";
      FirstOfTwo(header, payload, takes);
      ok := WriteBytes(header, takes);
      if !ok {
        return;
      }
      ConcatAssociates(written[..|written| - |header|], header, FirstOf(payload, takes - |header|));
      ok := WriteBytes(payload, takes - |header|);
      if !ok {
        return;
      }
      ok := flushed;
    }
  }

  /** The first so many characters, or all there are. */
  function FirstOf(s: string, n: nat): string {
    if n < |s| then s[..n] else s
  }

  lemma FirstOfTwo(a: string, b: string, n: nat)
    ensures FirstOf(a + b, n) == if n < |a| then FirstOf(a, n) else a + FirstOf(b, n - |a|)
  {
    assert n < |a| ==> (a + b)[..n] == a[..n];
    assert |a| <= n <= |a + b| ==> (a + b)[..n] == a + b[..n - |a|];
  }

  /** A buffered reader over the bytes still to come. */
  class FrameReader {
    var pending: string

    constructor (input: string)
      ensures pending == input
    {
      pending := input;
    }

    /** The bytes up to and including the next line feed. */
    method ReadLine() returns (line: Option<string>)
      modifies this
      ensures var eol := IndexOf(old(pending), '\n');
              if eol == |old(pending)| then line == None && pending == ""
              else line == Some(old(pending)[..eol + 1]) && pending == old(pending)[eol + 1..]
    {
      var eol := IndexOf(pending, '\n');
      if eol == |pending| {
        pending := "";
        return None;
      }
      line := Some(pending[..eol + 1]);
      pending := pending[eol + 1..];
    }

    /** The loop over the header lines. */
    method ReadHeaderLines() returns (r: Result<int, FrameError>)
      modifies this
      ensures match ReadHeaders(old(pending), -1)
              case BadHeaders(error) => r == Err(error)
              case Headers(length, rest) => r == Ok(length) && pending == rest
    {
      var contentLength: int := -1;
      while true
        invariant ReadHeaders(pending, contentLength) == ReadHeaders(old(pending), -1)
        decreases |pending|
      {
        HeadersStep(pending, contentLength);
        var line := ReadLine();
        if line.None? {
          return Err(EndOfInput);
        }
        var trimmed := TrimLineEnd(line.value);
        if trimmed == "" {
          break;
        }
        match ParseField(trimmed) {
          case Bad(error) => return Err(error);
          case Other =>
          case Length(n) => contentLength := n;
        }
      }
      r := Ok(contentLength);
    }

    method ReadLSPMessage() returns (r: Result<string, FrameError>)
      modifies this
      ensures match ReadMessage(old(pending))
              case Failed(error) => r == Err(error)
              case Message(payload, rest) => r == Ok(payload) && pending == rest
    {
      var read := ReadHeaderLines();
      if read.Err? {
        return Err(read.error);
      }
      var contentLength := read.value;
      if contentLength < 0 {
        return Err(MissingLength);
      }
      if contentLength > MAX_ALLOC {
        return Err(MakePanics);
      }
      if |pending| < contentLength {
        return Err(EndOfInput);
      }
      r := Ok(pending[..contentLength]);
      pending := pending[contentLength..];
    }
  }

  /** What one line does to the header block. */
  lemma HeadersStep(input: string, length: int)
    ensures var eol := IndexOf(input, '\n');
            if eol == |input| then ReadHeaders(input, length) == BadHeaders(EndOfInput)
            else
              var trimmed := TrimLineEnd(input[..eol + 1]);
              ReadHeaders(input, length) ==
              if trimmed == "" then Headers(length, input[eol + 1..])
              else
                match ParseField(trimmed)
                case Bad(error) => BadHeaders(error)
                case Other => ReadHeaders(input[eol + 1..], length)
                case Length(n) => ReadHeaders(input[eol + 1..], n)
  {
  }

  // --- what a written frame looks like to the reader ---

  lemma ContentLengthName()
    ensures TrimBytes(ToLower("Content-Length")) == "content-length"
  {
    assert ToLower("Content-Length") == "content-length";
    TrimBytesOfTrimmed("content-length");
  }

  lemma SpacedDigits(digits: string)
    requires digits != "" && AllDigits(digits)
    ensures TrimBytes(" " + digits) == digits
  {
    assert (" " + digits)[1..] == digits;
    assert IsDigit(digits[0]) && IsDigit(digits[|digits| - 1]);
    TrimBytesOfTrimmed(digits);
    assert TrimBytesLeft(" " + digits) == TrimBytesLeft(digits);
  }

  lemma FieldAt(name: string, value: string)
    requires ':' !in name
    ensures var line := name + [':'] + value;
            IndexOf(line, ':') == |name| < |line| && line[..|name|] == name && line[|name| + 1..] == value
  {
    IndexOfAppend(name, ':', value);
  }

  lemma LengthField(n: nat)
    requires IsInt64(n)
    ensures ParseField("Content-Length: " + Decimal(n)) == Length(n)
  {
    var name, value := "Content-Length", " " + Decimal(n);
    assert "Content-Length: " + Decimal(n) == name + [':'] + value;
    FieldAt(name, value);
    ContentLengthName();
    SpacedDigits(Decimal(n));
    ParseOfDecimal(n);
  }

  lemma LineEndTrimmed(s: string)
    requires s != "" && s[|s| - 1] != '\r' && s[|s| - 1] != '\n'
    ensures TrimLineEnd(s + "\r\n") == s
  {
    assert (s + "\r\n")[..|s| + 1] == s + "\r";
    assert (s + "\r")[..|s|] == s;
    assert TrimLineEnd(s) == s;
    assert TrimLineEnd(s + "\r") == TrimLineEnd(s);
  }

  /** A complete header line in front of the input is read and its field applied. */
  lemma HeaderLine(s: string, rest: string, length: int)
    requires s != "" && '\n' !in s && s[|s| - 1] != '\r'
    ensures var input := s + "\r\n" + rest;
            ReadHeaders(input, length) ==
            match ParseField(s)
            case Bad(error) => BadHeaders(error)
            case Other => ReadHeaders(rest, length)
            case Length(n) => ReadHeaders(rest, n)
  {
    var input := s + "\r\n" + rest;
    assert input == (s + "\r") + ['\n'] + rest;
    IndexOfAppend(s + "\r", '\n', rest);
    assert input[..|s| + 2] == s + "\r\n";
    assert input[|s| + 2..] == rest;
    LineEndTrimmed(s);
  }

  lemma HeaderEnd(rest: string, length: int)
    ensures ReadHeaders("\r\n" + rest, length) == Headers(length, rest)
  {
    var input := "\r\n" + rest;
    assert input == "\r" + ['\n'] + rest;
    IndexOfAppend("\r", '\n', rest);
    assert input[..2] == "\r\n" && input[2..] == rest;
    assert "\r\n"[..1] == "\r" && "\r"[..0] == "";
  }

  lemma FrameHeader(n: nat, rest: string, length: int)
    requires IsInt64(n)
    ensures ReadHeaders("Content-Length: " + Decimal(n) + "\r\n\r\n" + rest, length) == Headers(n, rest)
  {
    var s := "Content-Length: " + Decimal(n);
    assert s + "\r\n\r\n" + rest == s + "\r\n" + ("\r\n" + rest);
    assert '\n' !in s by { NoLineFeedInLengthField(n); }
    HeaderLine(s, "\r\n" + rest, length);
    LengthField(n);
    HeaderEnd(rest, n);
  }

  lemma NoLineFeedInLengthField(n: nat)
    ensures var s := "Content-Length: " + Decimal(n);
            '\n' !in s && s[|s| - 1] != '\r'
  {
  }

  /** One frame is read back exactly, whatever its bytes and whatever follows it. */
  lemma ReadOfFrame(payload: string, rest: string)
    requires IsPayload(payload)
    ensures ReadMessage(Frame(payload) + rest) == Message(payload, rest)
  {
    var header := "Content-Length: " + Decimal(|payload|) + "\r\n\r\n";
    assert Frame(payload) + rest == header + (payload + rest);
    FrameHeader(|payload|, payload + rest, -1);
    assert (payload + rest)[..|payload|] == payload;
    assert (payload + rest)[|payload|..] == rest;
  }

  datatype ManyDecoded = Messages(payloads: seq<string>, rest: string) | Stopped(error: FrameError)

  function ReadBy(read: string -> Decoded, input: string, n: nat): ManyDecoded
    decreases n
  {
    if n == 0 then Messages([], input)
    else
      match read(input)
      case Failed(error) => Stopped(error)
      case Message(payload, rest) =>
        match ReadBy(read, rest, n - 1)
        case Stopped(error) => Stopped(error)
        case Messages(payloads, rest') => Messages([payload] + payloads, rest')
  }

  function ReadMessages(input: string, n: nat): ManyDecoded {
    ReadBy(ReadMessage, input, n)
  }

  /** One frame is read back, whatever follows it. */
  ghost predicate ReadsBack(frame: string -> string, read: string -> Decoded) {
    && (forall payload, rest :: IsPayload(payload) ==> read(frame(payload) + rest) == Message(payload, rest))
    && (forall payload :: frame(payload) != "")
  }

  lemma FrameReadsBack()
    ensures ReadsBack(Frame, ReadMessage)
  {
    forall payload, rest | IsPayload(payload) ensures ReadMessage(Frame(payload) + rest) == Message(payload, rest) {
      ReadOfFrame(payload, rest);
    }
  }

  lemma {:induction false} ReadByOfFrames(frame: string -> string, read: string -> Decoded, payloads: seq<string>,
                                          rest: string)
    requires ReadsBack(frame, read) && forall k :: 0 <= k < |payloads| ==> IsPayload(payloads[k])
    ensures ReadBy(read, FramesBy(frame, payloads) + rest, |payloads|) == Messages(payloads, rest)
  {
    if payloads == [] {
      assert FramesBy(frame, payloads) + rest == rest;
    } else {
      var tail := FramesBy(frame, payloads[1..]) + rest;
      assert FramesBy(frame, payloads) + rest == frame(payloads[0]) + tail;
      ReadByOfFrames(frame, read, payloads[1..], rest);
    }
  }

  /** Any number of frames written one after the other is read back exactly, and what follows is left alone. */
  lemma ReadOfFrames(payloads: seq<string>, rest: string)
    requires forall k :: 0 <= k < |payloads| ==> IsPayload(payloads[k])
    ensures ReadMessages(Frames(payloads) + rest, |payloads|) == Messages(payloads, rest)
  {
    FrameReadsBack();
    ReadByOfFrames(Frame, ReadMessage, payloads, rest);
  }

  lemma {:induction false} FramesByInjective(frame: string -> string, read: string -> Decoded, a: seq<string>,
                                             b: seq<string>)
    requires ReadsBack(frame, read) && FramesBy(frame, a) == FramesBy(frame, b)
    requires forall k :: 0 <= k < |a| ==> IsPayload(a[k])
    requires forall k :: 0 <= k < |b| ==> IsPayload(b[k])
    ensures a == b
  {
    if a != [] && b != [] {
      assert read(frame(a[0]) + FramesBy(frame, a[1..])) == Message(a[0], FramesBy(frame, a[1..]));
      assert read(frame(b[0]) + FramesBy(frame, b[1..])) == Message(b[0], FramesBy(frame, b[1..]));
      FramesByInjective(frame, read, a[1..], b[1..]);
      assert a == [a[0]] + a[1..] && b == [b[0]] + b[1..];
    }
  }

  /** No two different message sequences produce the same bytes. */
  lemma FramesInjective(a: seq<string>, b: seq<string>)
    requires forall k :: 0 <= k < |a| ==> IsPayload(a[k])
    requires forall k :: 0 <= k < |b| ==> IsPayload(b[k])
    requires Frames(a) == Frames(b)
    ensures a == b
  {
    FrameReadsBack();
    FramesByInjective(Frame, ReadMessage, a, b);
  }

  /** A header the reader does not know is skipped. */
  lemma UnknownHeaderSkipped(name: string, value: string, input: string)
    requires ':' !in name && TrimBytes(ToLower(name)) != "content-length"
    requires '\n' !in name && '\n' !in value && (value == "" || value[|value| - 1] != '\r')
    ensures ReadMessage(name + ":" + value + "\r\n" + input) == ReadMessage(input)
  {
    var s := name + [':'] + value;
    assert name + ":" + value + "\r\n" + input == s + "\r\n" + input;
    IndexOfAppend(name, ':', value);
    assert s[..|name|] == name;
    assert ParseField(s) == Other;
    HeaderLine(s, input, -1);
  }

  /** Cut anywhere, as a failed write leaves it, a frame yields the end of the input and never a message. */
  lemma TruncatedFrameIsAnError(payload: string, k: nat)
    requires IsPayload(payload) && k < |Frame(payload)|
    ensures ReadMessage(Frame(payload)[..k]) == Failed(EndOfInput)
  {
    var s := "Content-Length: " + Decimal(|payload|);
    NoLineFeedInLengthField(|payload|);
    var header := s + "\r\n\r\n";
    var cut := Frame(payload)[..k];
    if k >= |header| {
      var part := payload[..k - |header|];
      assert cut == header + part;
      FrameHeader(|payload|, part, -1);
    } else if k >= |s| + 2 {
      var part := "\r\n"[..k - |s| - 2];
      assert cut == s + "\r\n" + part;
      HeaderLine(s, part, -1);
      LengthField(|payload|);
      assert '\n' !in part;
      assert IndexOf(part, '\n') == |part|;
    } else {
      assert cut == (s + "\r\n")[..k];
      assert forall i :: 0 <= i < k ==> cut[i] == (s + "\r\n")[i];
      assert '\n' !in cut;
      assert IndexOf(cut, '\n') == |cut|;
    }
  }

  // --- any header block ---

  /** A header line without its line end. */
  predicate IsHeaderLine(s: string) {
    s != "" && '\n' !in s && s[|s| - 1] != '\r'
  }

  function HeaderBlock(lines: seq<string>): string {
    if lines == [] then "\r\n" else lines[0] + "\r\n" + HeaderBlock(lines[1..])
  }

  /** The last Content-Length among the lines. */
  function LastLength(lines: seq<string>): Option<nat> {
    if lines == [] then None
    else
      match ParseField(lines[|lines| - 1])
      case Length(n) => Some(n)
      case _ => LastLength(lines[..|lines| - 1])
  }

  predicate NoneBad(lines: seq<string>) {
    forall k :: 0 <= k < |lines| ==> !ParseField(lines[k]).Bad?
  }

  lemma {:induction false} LastLengthFromFront(lines: seq<string>)
    requires lines != []
    ensures LastLength(lines) ==
            if LastLength(lines[1..]).Some? then LastLength(lines[1..])
            else if ParseField(lines[0]).Length? then Some(ParseField(lines[0]).length) else None
  {
    var init, rest := lines[..|lines| - 1], lines[1..];
    if |lines| == 1 {
      assert init == [] && rest == [];
    } else {
      LastLengthFromFront(init);
      assert init[1..] == rest[..|rest| - 1];
    }
  }

  lemma HeaderBlockHead(lines: seq<string>, rest: string, length: int)
    requires lines != [] && IsHeaderLine(lines[0])
    ensures var more := HeaderBlock(lines[1..]) + rest;
            ReadHeaders(HeaderBlock(lines) + rest, length) ==
            match ParseField(lines[0])
            case Bad(error) => BadHeaders(error)
            case Other => ReadHeaders(more, length)
            case Length(n) => ReadHeaders(more, n)
  {
    assert HeaderBlock(lines) + rest == lines[0] + "\r\n" + (HeaderBlock(lines[1..]) + rest);
    HeaderLine(lines[0], HeaderBlock(lines[1..]) + rest, length);
  }

  lemma BadIsNoPanic(s: string)
    ensures ParseField(s).Bad? ==> ParseField(s).error != MakePanics
  {
  }

  lemma NoneBadFromFront(lines: seq<string>)
    requires lines != []
    ensures NoneBad(lines) <==> !ParseField(lines[0]).Bad? && NoneBad(lines[1..])
  {
    assert forall k :: 1 <= k < |lines| ==> lines[k] == lines[1..][k - 1];
  }

  /** What a header block says: the last Content-Length wins, and a bad line is an error. */
  ghost predicate SaysHeaders(h: Headers, lines: seq<string>, rest: string, length: int) {
    if NoneBad(lines) then h == Headers(if LastLength(lines).Some? then LastLength(lines).value else length, rest)
    else h.BadHeaders? && h.error != MakePanics
  }

  /** From the second line on, with the length that the first has left, it says the same as from the first. */
  lemma SaysFromFront(h: Headers, lines: seq<string>, rest: string, length: int, field: HeaderField)
    requires lines != [] && field == ParseField(lines[0]) && !field.Bad?
    requires SaysHeaders(h, lines[1..], rest, if field.Length? then field.length else length)
    ensures SaysHeaders(h, lines, rest, length)
  {
    NoneBadFromFront(lines);
    LastLengthFromFront(lines);
  }

  /** Whatever its lines are. */
  lemma {:induction false} HeaderBlockIsRead(lines: seq<string>, rest: string, length: int)
    requires forall k :: 0 <= k < |lines| ==> IsHeaderLine(lines[k])
    ensures SaysHeaders(ReadHeaders(HeaderBlock(lines) + rest, length), lines, rest, length)
  {
    if lines == [] {
      HeaderEnd(rest, length);
    } else {
      var field := ParseField(lines[0]);
      HeaderBlockHead(lines, rest, length);
      if field.Bad? {
        BadIsNoPanic(lines[0]);
        NoneBadFromFront(lines);
      } else {
        var next := if field.Length? then field.length else length;
        HeaderBlockIsRead(lines[1..], rest, next);
        SaysFromFront(ReadHeaders(HeaderBlock(lines[1..]) + rest, next), lines, rest, length, field);
      }
    }
  }

  /** The message behind a header block: exactly when it is read, and what happens otherwise. */
  lemma BlockIsRead(lines: seq<string>, rest: string)
    requires forall k :: 0 <= k < |lines| ==> IsHeaderLine(lines[k])
    ensures var r := ReadMessage(HeaderBlock(lines) + rest);
            var length := LastLength(lines);
            if !NoneBad(lines) then r.Failed? && r.error != MakePanics
            else if length.None? then r == Failed(MissingLength)
            else if length.value > MAX_ALLOC then r == Failed(MakePanics)
            else if |rest| < length.value then r == Failed(EndOfInput)
            else r == Message(rest[..length.value], rest[length.value..])
  {
    HeaderBlockIsRead(lines, rest, -1);
    PayloadIsRead(ReadHeaders(HeaderBlock(lines) + rest, -1), lines, rest);
  }

  lemma PayloadIsRead(h: Headers, lines: seq<string>, rest: string)
    requires SaysHeaders(h, lines, rest, -1)
    ensures var r := ReadPayload(h);
            var length := LastLength(lines);
            if !NoneBad(lines) then r.Failed? && r.error != MakePanics
            else if length.None? then r == Failed(MissingLength)
            else if length.value > MAX_ALLOC then r == Failed(MakePanics)
            else if |rest| < length.value then r == Failed(EndOfInput)
            else r == Message(rest[..length.value], rest[length.value..])
  {
  }

  /** The reader panics exactly when no header line is bad and the last Content-Length is more than a slice can hold. */
  lemma PanicsIff(lines: seq<string>, rest: string)
    requires forall k :: 0 <= k < |lines| ==> IsHeaderLine(lines[k])
    ensures ReadMessage(HeaderBlock(lines) + rest) == Failed(MakePanics) <==>
              NoneBad(lines) && LastLength(lines).Some? && LastLength(lines).value > MAX_ALLOC
  {
    BlockIsRead(lines, rest);
  }

  /** As for a single header with such a length. */
  lemma OversizedLengthPanics(n: nat, rest: string)
    requires MAX_ALLOC < n <= MAX_INT64
    ensures ReadMessage("Content-Length: " + Decimal(n) + "\r\n\r\n" + rest) == Failed(MakePanics)
  {
    FrameHeader(n, rest, -1);
  }
}
