/** The base protocol of the language server session: Content-Length framing over a byte stream. */
module Framing {
  import opened Text

  const CONTENT_LENGTH := "Content-Length:"
  const MAX_INT: int := 0x7FFF_FFFF_FFFF_FFFF
  /** The longest slice the Go runtime will make on a 64-bit machine. */
  const MAX_ALLOC: int := 0x1_0000_0000_0000

  // ----- decimal numbers -----

  function Digit(d: int): char
    requires 0 <= d < 10
  {
    "0123456789"[d]
  }

  predicate IsDigit(c: char) {
    '0' <= c <= '9'
  }

  function Itoa(n: nat): string {
    if n < 10 then [Digit(n)] else Itoa(n / 10) + [Digit(n % 10)]
  }

  predicate AllDigits(s: string) {
    forall i :: 0 <= i < |s| ==> IsDigit(s[i])
  }

  function Number(s: string): int {
    if s == "" then 0 else 10 * Number(s[..|s| - 1]) + (s[|s| - 1] as int - '0' as int)
  }

  function Clamp(n: int): int {
    if n > MAX_INT then MAX_INT else if n < -MAX_INT - 1 then -MAX_INT - 1 else n
  }

  /** `strconv.Atoi` with its error ignored: 0 for what is no number, the nearest 64-bit value for what is
      out of range. */
  function Atoi(s: string): int {
    var negative := s != "" && s[0] == '-';
    var digits := if s != "" && (s[0] == '-' || s[0] == '+') then s[1..] else s;
    if digits == "" || !AllDigits(digits) then 0
    else Clamp(if negative then -Number(digits) else Number(digits))
  }

  lemma DigitValue(d: int)
    requires 0 <= d < 10
    ensures IsDigit(Digit(d)) && Digit(d) as int - '0' as int == d
  {
  }

  lemma NumberSnoc(s: string, d: int)
    requires AllDigits(s) && 0 <= d < 10
    ensures AllDigits(s + [Digit(d)]) && Number(s + [Digit(d)]) == 10 * Number(s) + d
  {
    hide Digit;
    DigitValue(d);
    assert (s + [Digit(d)])[..|s|] == s;
  }

  lemma {:induction false} ItoaDigits(n: nat)
    ensures Itoa(n) != "" && AllDigits(Itoa(n)) && Number(Itoa(n)) == n
    decreases n
  {
    hide Digit, Number, AllDigits;
    if n < 10 {
      NoDigits();
      NumberSnoc("", n);
      assert "" + [Digit(n)] == [Digit(n)];
    } else {
      ItoaDigits(n / 10);
      NumberSnoc(Itoa(n / 10), n % 10);
    }
  }

  lemma NoDigits()
    ensures AllDigits("") && Number("") == 0
  {
  }

  lemma AtoiOfItoa(n: nat)
    requires n <= MAX_INT
    ensures Atoi(Itoa(n)) == n
  {
    ItoaDigits(n);
    hide Itoa, Number;
    assert IsDigit(Itoa(n)[0]);
  }

  function Power10(k: nat): nat {
    if k == 0 then 1 else 10 * Power10(k - 1)
  }

  /** The value of a decimal numeral, its first digit weighing most. */
  function Value(s: string): int {
    if s == "" then 0 else (s[0] as int - '0' as int) * Power10(|s| - 1) + Value(s[1..])
  }

  lemma {:induction false} NumberIsValue(s: string)
    ensures Number(s) == Value(s)
    decreases |s|
  {
    if |s| == 1 {
      assert Number(s[..0]) == 0 && Value(s[1..]) == 0;
    } else if s != "" {
      var n := |s| - 1;
      var front := s[..n];
      NumberIsValue(front);
      NumberIsValue(s[1..]);
      NumberIsValue(front[1..]);
      assert s[1..][..n - 1] == front[1..] && s[1..][n - 1] == s[n];
      Distributes(s[0] as int - '0' as int, Power10(n - 1), Value(front[1..]), s[n] as int - '0' as int);
    }
  }

  lemma Distributes(first: int, power: int, middle: int, last: int)
    ensures 10 * (first * power + middle) + last == first * (10 * power) + (10 * middle + last)
  {
  }

  /** An optional sign and at least one digit make a number, kept within 64 bits; anything else makes 0. */
  lemma AtoiMeans(s: string)
    ensures s != "" && AllDigits(s) ==>
              var n := Value(s);
              && Atoi(s) == Atoi("+" + s) == (if n < 0x8000_0000_0000_0000 then n else 0x7FFF_FFFF_FFFF_FFFF)
              && Atoi("-" + s) == if n <= 0x8000_0000_0000_0000 then -n else -0x8000_0000_0000_0000
    ensures Atoi(s) != 0 ==> s != "" && (AllDigits(s) || (s[0] in "+-" && s != [s[0]] && AllDigits(s[1..])))
  {
    hide Number, Value;
    NumberIsValue(s);
    assert ("+" + s)[1..] == s && ("-" + s)[1..] == s;
    if s != "" && AllDigits(s) {
      assert IsDigit(s[0]);
      NumberPositive(s);
    }
  }

  lemma {:induction false} NumberPositive(s: string)
    requires AllDigits(s)
    ensures Number(s) >= 0
  {
    if s != "" {
      var n := |s| - 1;
      assert IsDigit(s[n]);
      assert forall i :: 0 <= i < n ==> IsDigit(s[..n][i]);
      NumberPositive(s[..n]);
    }
  }

  /** Printing puts the last digit last. */
  lemma ItoaSpelled(n: nat, d: nat)
    requires d < 10
    ensures Itoa(d) == ["0123456789"[d]]
    ensures n > 0 ==> Itoa(10 * n + d) == Itoa(n) + ["0123456789"[d]]
  {
  }

  // ----- writing -----

  function Header(length: nat): string {
    CONTENT_LENGTH + " " + Itoa(length)
  }

  function Frame(body: string): string {
    Header(|body|) + "\r\n" + "\r\n" + body
  }

  lemma FrameSpelled(body: string)
    ensures Frame(body) == "Content-Length: " + Itoa(|body|) + "\r\n\r\n" + body
  {
    hide Itoa;
    FieldName();
    BlankLineEnds();
    Regroup(CONTENT_LENGTH, " ", Itoa(|body|), "\r\n", body);
  }

  lemma FieldName()
    ensures CONTENT_LENGTH + " " == "Content-Length: "
  {
  }

  lemma BlankLineEnds()
    ensures "\r\n" + "\r\n" == "\r\n\r\n"
  {
  }

  lemma Regroup(name: string, space: string, digits: string, end: string, body: string)
    ensures name + space + digits + end + end + body == (name + space) + digits + (end + end) + body
  {
    assert name + space + digits + end + end == (name + space) + digits + (end + end);
  }

  // ----- reading -----

  datatype Reading = Message(body: string, rest: string) | Broken | Panic

  /** Up to and including the first line feed; the whole of `s` if there is none. */
  function LineEnd(s: string): (n: nat)
    ensures n <= |s|
    ensures forall i :: 0 <= i < n - 1 ==> s[i] != '\n'
    ensures '\n' in s ==> n > 0 && s[n - 1] == '\n'
  {
    if s == "" then 0
    else if s[0] == '\n' then 1
    else 1 + LineEnd(s[1..])
  }

  function LengthAfter(line: string, length: int): int {
    if CONTENT_LENGTH <= line then Atoi(TrimSpace(line[|CONTENT_LENGTH|..])) else length
  }

  /** The headers: the announced length and what follows the blank line. */
  function Headers(s: string, length: int): (h: Option<(int, string)>)
    ensures h.Some? ==> |h.value.1| <= |s|
    decreases |s|
  {
    if '\n' !in s then None
    else
      var n := LineEnd(s);
      var line := TrimSpace(s[..n]);
      if line == "" then Some((length, s[n..])) else Headers(s[n..], LengthAfter(line, length))
  }

  function Body(length: int, rest: string): Reading {
    if length == 0 then Broken
    else if length < 0 || length > MAX_ALLOC then Panic
    else if length > |rest| then Broken
    else Message(rest[..length], rest[length..])
  }

  function Read(s: string): (r: Reading)
    ensures r.Message? ==> |r.rest| < |s|
  {
    match Headers(s, 0)
    case None => Broken
    case Some((length, rest)) => Body(length, rest)
  }

  /** The server's output, read by one goroutine. */
  class Reader {
    var input: string

    constructor (input: string)
      ensures this.input == input
    {
      this.input := input;
    }

    method ReadString() returns (line: string, ok: bool)
      modifies this
      ensures ok == ('\n' in old(input))
      ensures line == old(input)[..LineEnd(old(input))] && input == old(input)[LineEnd(old(input))..]
    {
      var n := 0;
      ok := false;
      while n < |input| && !ok
        invariant n <= |input| && input == old(input)
        invariant !ok ==> LineEnd(input) == n + LineEnd(input[n..]) && forall i :: 0 <= i < n ==> input[i] != '\n'
        invariant ok ==> '\n' in input && LineEnd(input) == n
      {
        ok := input[n] == '\n';
        assert input[n..][1..] == input[n + 1..];
        n := n + 1;
      }
      line, input := input[..n], input[n..];
    }

    method ReadMessage() returns (r: Reading)
      modifies this
      ensures r == Read(old(input))
      ensures r.Message? ==> input == r.rest
    {
      hide TrimSpace, Atoi, LineEnd;
      var contentLength := 0;
      while true
        invariant Headers(old(input), 0) == Headers(input, contentLength)
        decreases |input|
      {
        ghost var before := input;
        LineEndPositive(input);
        var line, ok := ReadString();
        if !ok {
          return Broken;
        }
        line := TrimSpace(line);
        if line == "" {
          break;
        }
        if CONTENT_LENGTH <= line {
          contentLength := Atoi(TrimSpace(line[|CONTENT_LENGTH|..]));
        }
      }
      if contentLength == 0 {
        return Broken;
      }
      if contentLength < 0 || contentLength > MAX_ALLOC {
        return Panic;
      }
      if contentLength > |input| {
        return Broken;
      }
      var body := input[..contentLength];
      input := input[contentLength..];
      return Message(body, input);
    }
  }

  lemma LineEndPositive(s: string)
    ensures '\n' in s ==> LineEnd(s) > 0
  {
  }

  // ----- what is written is read -----

  lemma {:induction false} LineEndOf(line: string, rest: string)
    requires '\n' !in line
    ensures LineEnd(line + "\n" + rest) == |line| + 1
  {
    var s := line + "\n" + rest;
    if line == "" {
      assert s[0] == '\n';
    } else {
      assert s[1..] == line[1..] + "\n" + rest;
      assert line[0] in line;
      LineEndOf(line[1..], rest);
    }
  }

  lemma HeaderStep(line: string, rest: string, length: int)
    requires '\n' !in line
    ensures Headers(line + "\n" + rest, length) ==
            var trimmed := TrimSpace(line + "\n");
            if trimmed == "" then Some((length, rest)) else Headers(rest, LengthAfter(trimmed, length))
  {
    hide TrimSpace, LengthAfter, LineEnd;
    var s := line + "\n" + rest;
    LineEndOf(line, rest);
    assert s[|line|] == '\n';
    assert s[..|line| + 1] == line + "\n";
    assert s[|line| + 1..] == rest;
  }

  lemma TrimNewline(line: string)
    requires Trimmed(line)
    ensures TrimSpace(line + "\r" + "\n") == line
  {
    hide Trimmed;
    var s := line + "\r" + "\n";
    if line == "" {
      assert s == "\r\n";
      assert s[1..] == "\n" && "\n"[1..] == "";
      assert TrimLeft(s) == TrimLeft("\n") == "";
    } else {
      TrimmedEnds(line);
      assert TrimLeft(s) == s;
      assert s[..|s| - 1] == line + "\r";
      assert (line + "\r")[..|line|] == line;
      assert TrimRight(s) == TrimRight(line + "\r") == TrimRight(line) == line;
    }
  }

  lemma TrimmedEnds(s: string)
    requires Trimmed(s) && s != ""
    ensures !IsSpace(s[0]) && !IsSpace(s[|s| - 1])
  {
  }

  lemma HeaderRead(length: nat, rest: string, before: int)
    requires length <= MAX_INT
    ensures Headers(Header(length) + "\r\n" + rest, before) == Headers(rest, length)
  {
    hide Itoa, Atoi, TrimSpace, Trimmed, Headers;
    var h, digits := Header(length), Itoa(length);
    NumeralTrims(length);
    assert Header(length) + "\r\n" + rest == (h + "\r") + "\n" + rest;
    assert h[|CONTENT_LENGTH|..] == " " + digits;
    TrimNewline(h);
    AtoiOfItoa(length);
    assert '\n' !in h;
    HeaderStep(h + "\r", rest, before);
  }

  lemma NumeralTrims(n: nat)
    ensures Trimmed(Header(n)) && TrimSpace(" " + Itoa(n)) == Itoa(n) && '\n' !in Itoa(n)
  {
    hide Itoa, Number, TrimRight;
    ItoaDigits(n);
    var digits := Itoa(n);
    assert IsDigit(digits[0]) && IsDigit(digits[|digits| - 1]);
    assert (" " + digits)[1..] == digits;
    assert TrimLeft(" " + digits) == TrimLeft(digits) == digits;
    TrimmedIsFixed(digits);
  }

  lemma BlankRead(rest: string, length: int)
    ensures Headers("\r\n" + rest, length) == Some((length, rest))
  {
    TrimNewline("");
    HeaderStep("\r", rest, length);
    hide TrimSpace, Headers;
    assert "" + "\r" + "\n" == "\r" + "\n";
    assert "\r" + "\n" + rest == "\r\n" + rest;
  }

  // ----- other headers -----

  function Lines(lines: seq<string>): string {
    if lines == [] then "" else lines[0] + "\n" + Lines(lines[1..])
  }

  /** A header line of some other field. */
  predicate OtherField(line: string) {
    '\n' !in line && TrimSpace(line + "\n") != "" && !(CONTENT_LENGTH <= TrimSpace(line + "\n"))
  }

  lemma {:induction false} OtherFieldsSkipped(lines: seq<string>, rest: string, length: int)
    requires forall i :: 0 <= i < |lines| ==> OtherField(lines[i])
    ensures Headers(Lines(lines) + rest, length) == Headers(rest, length)
  {
    hide Headers, TrimSpace;
    if lines == [] {
      assert Lines(lines) + rest == rest;
    } else {
      assert OtherField(lines[0]);
      assert Lines(lines) + rest == lines[0] + "\n" + (Lines(lines[1..]) + rest);
      HeaderStep(lines[0], Lines(lines[1..]) + rest, length);
      OtherFieldsSkipped(lines[1..], rest, length);
    }
  }

  predicate NotBlank(line: string) {
    '\n' !in line && TrimSpace(line + "\n") != ""
  }

  /** Without a blank line the headers never end. */
  lemma {:induction false} NoBlankLine(lines: seq<string>, tail: string, length: int)
    requires (forall i :: 0 <= i < |lines| ==> NotBlank(lines[i])) && '\n' !in tail
    ensures Headers(Lines(lines) + tail, length) == None
  {
    hide TrimSpace, LengthAfter;
    if lines == [] {
      assert Lines(lines) + tail == tail;
    } else {
      assert NotBlank(lines[0]);
      assert Lines(lines) + tail == lines[0] + "\n" + (Lines(lines[1..]) + tail);
      HeaderStep(lines[0], Lines(lines[1..]) + tail, length);
      NoBlankLine(lines[1..], tail, LengthAfter(TrimSpace(lines[0] + "\n"), length));
    }
  }

  /** The last field of that name announces the length, even if it is no number; a message without one is broken. */
  lemma {:induction false} LastLengthCounts(lines: seq<string>, blank: string, rest: string, length: int)
    requires (forall i :: 0 <= i < |lines| ==> NotBlank(lines[i]))
    requires '\n' !in blank && TrimSpace(blank + "\n") == ""
    ensures var s := Lines(lines) + (blank + "\n" + rest);
            Headers(s, length) == Some((Announced(lines, length), rest))
  {
    hide TrimSpace, LengthAfter, Headers;
    var end := blank + "\n" + rest;
    if lines == [] {
      assert Lines(lines) + end == end;
      HeaderStep(blank, rest, length);
    } else {
      var trimmed := TrimSpace(lines[0] + "\n");
      assert NotBlank(lines[0]);
      assert Lines(lines) + end == lines[0] + "\n" + (Lines(lines[1..]) + end);
      HeaderStep(lines[0], Lines(lines[1..]) + end, length);
      LastLengthCounts(lines[1..], blank, rest, LengthAfter(trimmed, length));
      AnnouncedFirst(lines, length);
    }
  }

  /** One message, whatever its header lines: the blank line ends them, and the announced length decides. */
  lemma ReadMeans(lines: seq<string>, blank: string, rest: string)
    requires (forall i :: 0 <= i < |lines| ==> NotBlank(lines[i]))
    requires '\n' !in blank && TrimSpace(blank + "\n") == ""
    ensures var n := Announced(lines, 0);
            Read(Lines(lines) + (blank + "\n" + rest)) ==
            if n < 0 || n > 0x1_0000_0000_0000 then Panic
            else if 0 < n <= |rest| then Message(rest[..n], rest[n..])
            else Broken
  {
    LastLengthCounts(lines, blank, rest, 0);
    hide Headers, Announced, TrimSpace, Lines;
  }

  /** The length that these lines announce, looked for from the last; `length` if none does. */
  function Announced(lines: seq<string>, length: int): int {
    if lines == [] then length
    else
      var last := TrimSpace(lines[|lines| - 1] + "\n");
      if "Content-Length:" <= last then Atoi(TrimSpace(last[15..])) else Announced(lines[..|lines| - 1], length)
  }

  lemma {:induction false} AnnouncedFirst(lines: seq<string>, length: int)
    requires lines != []
    ensures Announced(lines, length) == Announced(lines[1..], LengthAfter(TrimSpace(lines[0] + "\n"), length))
    decreases |lines|
  {
    hide TrimSpace, Atoi;
    var n := |lines| - 1;
    if n == 0 {
      assert Announced(lines[..0], length) == length;
    } else {
      assert lines[1..][n - 1] == lines[n] && lines[1..][..n - 1] == lines[..n][1..];
      AnnouncedFirst(lines[..n], length);
    }
  }

  /** A frame with other fields before and after the length. */
  function FrameWith(before: seq<string>, after: seq<string>, body: string): string {
    Lines(before) + Header(|body|) + "\r\n" + Lines(after) + "\r\n" + body
  }

  predicate Sendable(body: string) {
    body != "" && |body| <= MAX_ALLOC
  }

  /** A frame is read back, whatever follows and whatever the body looks like, and other header fields make
      no difference: exactly if the body is not empty and fits. */
  lemma FrameIsRead(before: seq<string>, after: seq<string>, body: string, rest: string)
    requires forall i :: 0 <= i < |before| ==> OtherField(before[i])
    requires forall i :: 0 <= i < |after| ==> OtherField(after[i])
    requires |body| <= MAX_INT
    ensures Read(FrameWith(before, after, body) + rest) == Message(body, rest) <==> Sendable(body)
    ensures body == "" ==> Read(FrameWith(before, after, body) + rest) == Broken
    ensures |body| > MAX_ALLOC ==> Read(FrameWith(before, after, body) + rest) == Panic
  {
    hide Headers, Header, OtherField, Lines;
    var s := FrameWith(before, after, body) + rest;
    var tail := body + rest;
    assert s == Lines(before) + (Header(|body|) + "\r\n" + (Lines(after) + ("\r\n" + tail)));
    OtherFieldsSkipped(before, Header(|body|) + "\r\n" + (Lines(after) + ("\r\n" + tail)), 0);
    HeaderRead(|body|, Lines(after) + ("\r\n" + tail), 0);
    OtherFieldsSkipped(after, "\r\n" + tail, |body|);
    BlankRead(tail, |body|);
    assert tail[..|body|] == body && tail[|body|..] == rest;
  }

  lemma FrameIsPlain(body: string)
    ensures Frame(body) == FrameWith([], [], body)
  {
    hide Header;
    assert Lines([]) == "";
    assert Frame(body) == "" + Header(|body|) + "\r\n" + "" + "\r\n" + body;
  }

  function Frames(bodies: seq<string>): string {
    if bodies == [] then "" else Frame(bodies[0]) + Frames(bodies[1..])
  }

  /** Every message until one cannot be read. */
  function ReadAll(s: string): seq<string>
    decreases |s|
  {
    match Read(s)
    case Message(body, rest) => [body] + ReadAll(rest)
    case _ => []
  }

  /** Frames in front of anything are read first, in order. */
  lemma {:induction false} FramesThenRest(bodies: seq<string>, rest: string)
    requires forall i :: 0 <= i < |bodies| ==> Sendable(bodies[i])
    ensures ReadAll(Frames(bodies) + rest) == bodies + ReadAll(rest)
  {
    hide Read, Frame, FrameWith;
    if bodies == [] {
      assert Frames(bodies) + rest == rest;
    } else {
      var more := Frames(bodies[1..]) + rest;
      assert Sendable(bodies[0]);
      FrameIsPlain(bodies[0]);
      FrameIsRead([], [], bodies[0], more);
      FramesThenRest(bodies[1..], rest);
      assert Frames(bodies) + rest == Frame(bodies[0]) + more;
      assert [bodies[0]] + (bodies[1..] + ReadAll(rest)) == bodies + ReadAll(rest);
    }
  }

  /** A frame cut short anywhere is not read. */
  lemma CutFrameIsBroken(body: string, n: nat)
    requires n < |Frame(body)| && |body| <= 0x1_0000_0000_0000
    ensures Read(Frame(body)[..n]) == Broken
  {
    var h := Header(|body|);
    NumeralTrims(|body|);
    assert '\n' !in h;
    hide Headers, Header;
    var s := Frame(body)[..n];
    assert Frame(body) == h + "\r\n" + "\r\n" + body;
    if n <= |h| + 1 {
      assert '\n' !in s;
      NoBlankLine([], s, 0);
      assert Lines([]) + s == s;
    } else if n <= |h| + 3 {
      assert s == h + "\r\n" + s[|h| + 2..];
      HeaderRead(|body|, s[|h| + 2..], 0);
      NoBlankLine([], s[|h| + 2..], |body|);
      assert Lines([]) + s[|h| + 2..] == s[|h| + 2..];
    } else {
      var part := body[..n - |h| - 4];
      assert s == h + "\r\n" + ("\r\n" + part);
      HeaderRead(|body|, "\r\n" + part, 0);
      BlankRead(part, |body|);
    }
  }

  /** The bodies sent are the bodies read, in order. */
  lemma FramesAreRead(bodies: seq<string>)
    requires forall i :: 0 <= i < |bodies| ==> Sendable(bodies[i])
    ensures ReadAll(Frames(bodies)) == bodies
  {
    FramesThenRest(bodies, "");
    NothingToRead();
    hide Read, Frames;
    assert Frames(bodies) + "" == Frames(bodies) && bodies + [] == bodies;
  }

  lemma NothingToRead()
    ensures Read("") == Broken
  {
  }

  /** A header that announces the negative length -n. */
  function NegativeHeader(n: nat): string {
    CONTENT_LENGTH + " -" + Itoa(n)
  }

  /** A length below zero, however large and whatever other fields stand beside it, is not refused but crashes the
      reader. */
  lemma NegativeLengthPanics(before: seq<string>, after: seq<string>, n: nat, rest: string)
    requires n > 0
    requires forall i :: 0 <= i < |before| ==> OtherField(before[i])
    requires forall i :: 0 <= i < |after| ==> OtherField(after[i])
    ensures Read(Lines(before) + NegativeHeader(n) + "\r\n" + Lines(after) + "\r\n" + rest) == Panic
  {
    hide Headers, Header, OtherField, Lines, NegativeHeader;
    var tail := Lines(after) + ("\r\n" + rest);
    var s := NegativeHeader(n) + "\r\n" + tail;
    assert Lines(before) + NegativeHeader(n) + "\r\n" + Lines(after) + "\r\n" + rest == Lines(before) + s;
    OtherFieldsSkipped(before, s, 0);
    NegativeRead(n, tail, 0);
    OtherFieldsSkipped(after, "\r\n" + rest, Clamp(0 - n));
    BlankRead(rest, Clamp(0 - n));
  }

  lemma NegativeRead(n: nat, rest: string, before: int)
    ensures Headers(NegativeHeader(n) + "\r\n" + rest, before) == Headers(rest, Clamp(0 - n))
  {
    hide Itoa, Atoi, TrimSpace, Trimmed, Headers;
    var h, numeral := NegativeHeader(n), "-" + Itoa(n);
    NegativeTrims(n);
    assert h + "\r\n" + rest == (h + "\r") + "\n" + rest;
    assert h[|CONTENT_LENGTH|..] == " " + numeral;
    TrimNewline(h);
    NegativeAtoi(n);
    assert '\n' !in h;
    HeaderStep(h + "\r", rest, before);
  }

  lemma NegativeTrims(n: nat)
    ensures Trimmed(NegativeHeader(n)) && TrimSpace(" " + ("-" + Itoa(n))) == "-" + Itoa(n) && '\n' !in Itoa(n)
  {
    hide Itoa, Number, TrimRight;
    ItoaDigits(n);
    var numeral := "-" + Itoa(n);
    assert IsDigit(Itoa(n)[|Itoa(n)| - 1]) && numeral[|numeral| - 1] == Itoa(n)[|Itoa(n)| - 1];
    assert (" " + numeral)[1..] == numeral;
    assert TrimLeft(" " + numeral) == TrimLeft(numeral) == numeral;
    TrimmedIsFixed(numeral);
  }

  lemma NegativeAtoi(n: nat)
    ensures Atoi("-" + Itoa(n)) == Clamp(0 - n)
  {
    ItoaDigits(n);
    hide Itoa, Number;
    assert ("-" + Itoa(n))[1..] == Itoa(n);
  }
}
