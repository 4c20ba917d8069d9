/**
 The editor client's JSON-RPC transport: frames with a Content-Length header part, as
 in the base protocol of LSP 3.17, and the client that matches response ids. JSON
 itself is a pair of functions between messages and bytes.
 */
module ContentLength {
  import opened Bits
  import Decimal

  type Bytes = seq<byte>

  const MAX_FRAME: nat := 0x400_0000
  const MAX_HEADER: nat := 8192
  /** How many digits `int` converts by default. */
  const MAX_DIGITS: nat := 4300

  // ------------------------------------------------------------------------- text

  predicate IsAscii(b: Bytes) { forall i :: 0 <= i < |b| ==> b[i] < 128 }

  function Text(b: Bytes): (s: string)
    requires IsAscii(b)
    ensures |s| == |b| && forall i :: 0 <= i < |b| ==> s[i] == b[i] as char
  {
    seq(|b|, i requires 0 <= i < |b| => b[i] as char)
  }

  predicate AsciiText(s: string) { forall i :: 0 <= i < |s| ==> s[i] as int < 128 }

  function Ascii(s: string): (b: Bytes)
    requires AsciiText(s)
    ensures |b| == |s| && IsAscii(b) && Text(b) == s
    ensures forall i :: 0 <= i < |s| ==> b[i] == s[i] as int
  {
    seq(|s|, i requires 0 <= i < |s| => s[i] as int)
  }

  function Lower(s: string): (r: string)
    ensures |r| == |s|
  {
    seq(|s|, i requires 0 <= i < |s| => if 'A' <= s[i] <= 'Z' then (s[i] as int + 32) as char else s[i])
  }

  /** The ASCII characters `str.strip` removes. */
  predicate IsSpace(c: char) { 9 <= c as int <= 13 || 28 <= c as int <= 32 }

  function StripLeft(s: string): string { if s != [] && IsSpace(s[0]) then StripLeft(s[1..]) else s }

  function StripRight(s: string): string
  {
    if s != [] && IsSpace(s[|s| - 1]) then StripRight(s[..|s| - 1]) else s
  }

  /** Position of the first `c`, or the length. */
  function IndexOf(s: string, c: char): (i: nat)
    ensures i <= |s|
  {
    if s == [] || s[0] == c then 0 else 1 + IndexOf(s[1..], c)
  }

  /** Digits with single underscores between them. */
  function Grouped(s: string): Decimal.Option<nat>
  {
    if s == [] || !Decimal.IsDigit(s[|s| - 1]) then Decimal.None
    else if |s| == 1 then Decimal.Some(Decimal.Value(s[0]))
    else
      var init := Grouped(if s[|s| - 2] == '_' then s[..|s| - 2] else s[..|s| - 1]);
      if init.None? then Decimal.None else Decimal.Some(10 * init.value + Decimal.Value(s[|s| - 1]))
  }

  function DigitCount(s: string): nat
  {
    if s == [] then 0 else DigitCount(s[..|s| - 1]) + if Decimal.IsDigit(s[|s| - 1]) then 1 else 0
  }

  /** `int(text)` after `strip`. */
  function ParseInt(s: string): Decimal.Option<int>
  {
    var neg := s != [] && s[0] == '-';
    var digits := if s != [] && (s[0] == '-' || s[0] == '+') then s[1..] else s;
    var n := Grouped(digits);
    if n.None? || DigitCount(digits) > MAX_DIGITS then Decimal.None else
    var v: int := n.value;
    Decimal.Some(if neg then -v else v)
  }

  // ----------------------------------------------------------------------- headers

  datatype Error = EofInHeaders | HeaderTooLong | IncompleteLine | NotAscii | BadLength | MissingLength
                 | BodySize | EofInBody | BadJson

  /** How many bytes `readline(limit)` returns. */
  function LineLen(s: Bytes, limit: nat): (k: nat)
    ensures k <= |s| && k <= limit
    ensures k == 0 <==> s == [] || limit == 0
  {
    if s == [] || limit == 0 then 0 else if s[0] == 10 then 1 else 1 + LineLen(s[1..], limit - 1)
  }

  datatype HeaderBlock = Block(lines: seq<Bytes>, rest: Bytes) | BadBlock(error: Error)

  /** The header lines up to the blank one, after `used` bytes of them. */
  function Headers(s: Bytes, used: nat): HeaderBlock
    requires used <= MAX_HEADER
    decreases |s|
  {
    var k := LineLen(s, MAX_HEADER - used + 1);
    if k == 0 then BadBlock(EofInHeaders)
    else if used + k > MAX_HEADER then BadBlock(HeaderTooLong)
    else if s[k - 1] != 10 then BadBlock(IncompleteLine)
    else if s[..k] == [13, 10] || s[..k] == [10] then Block([], s[k..])
    else
      var r := Headers(s[k..], used + k);
      if r.Block? then Block([s[..k]] + r.lines, r.rest) else r
  }

  /** A header block with lines in front. */
  function Prefixed(lines: seq<Bytes>, h: HeaderBlock): HeaderBlock
  {
    if h.Block? then Block(lines + h.lines, h.rest) else h
  }

  ghost predicate IsLine(s: Bytes, limit: nat, line: Bytes, rest: Bytes)
  {
    var k := LineLen(s, limit);
    line == s[..k] && rest == s[k..]
  }

  /** `lines` are the first lines of the header block `h`, and `s` is what follows them. */
  ghost predicate Begun(h: HeaderBlock, lines: seq<Bytes>, s: Bytes, used: nat)
  {
    used <= MAX_HEADER && h == Prefixed(lines, Headers(s, used))
  }

  /** Reading the next line of a header block `h` that `lines` has begun. */
  lemma HeadersStep(h: HeaderBlock, s: Bytes, used: nat, lines: seq<Bytes>, line: Bytes, rest: Bytes)
    requires Begun(h, lines, s, used) && IsLine(s, MAX_HEADER - used + 1, line, rest)
    ensures |s| == |line| + |rest| && |line| <= MAX_HEADER - used + 1
    ensures if line == [] then h == BadBlock(EofInHeaders)
            else if used + |line| > MAX_HEADER then h == BadBlock(HeaderTooLong)
            else if line[|line| - 1] != 10 then h == BadBlock(IncompleteLine)
            else if line == [13, 10] || line == [10] then h == Block(lines, rest)
            else Begun(h, lines + [line], rest, used + |line|)
  {
    var r := Headers(s, used);
    if r.Block? {
      assert lines + [] == lines;
      if r.lines != [] { assert lines + ([line] + r.lines[1..]) == (lines + [line]) + r.lines[1..]; }
    }
  }

  datatype Length = Length(value: int) | NoLength(error: Error)

  /** The first Content-Length header decides; lines after it are not looked at. */
  function LengthOf(lines: seq<Bytes>): Length
  {
    if lines == [] then NoLength(MissingLength)
    else if !IsAscii(lines[0]) then NoLength(NotAscii)
    else
      var text := Text(lines[0]);
      var colon := IndexOf(text, ':');
      if Lower(text[..colon]) == "content-length" then
        var v := ParseInt(StripRight(StripLeft(if colon < |text| then text[colon + 1..] else "")));
        if v.None? then NoLength(BadLength) else Length(v.value)
      else LengthOf(lines[1..])
  }

  // ------------------------------------------------------------------------ frames

  datatype Received<M> = Message(value: M, rest: Bytes) | Failure(error: Error)

  /** What reading one frame from `s` gives. */
  function Receive<M>(s: Bytes, loads: Bytes -> Decimal.Option<M>): Received<M>
  {
    var h := Headers(s, 0);
    if h.BadBlock? then Failure(h.error) else
    var n := LengthOf(h.lines);
    if n.NoLength? then Failure(n.error)
    else if n.value < 0 || n.value > MAX_FRAME then Failure(BodySize)
    else if |h.rest| < n.value then Failure(EofInBody)
    else
      var m := loads(h.rest[..n.value]);
      if m.None? then Failure(BadJson) else Message(m.value, h.rest[n.value..])
  }

  function Receiver<M>(loads: Bytes -> Decimal.Option<M>): Bytes -> Received<M> { (s: Bytes) => Receive(s, loads) }

  function HeaderText(n: nat): (s: string)
    ensures AsciiText(s)
  {
    "Content-Length: " + Decimal.Print(n) + "\r\n"
  }

  /** `encode_frame` of a message whose JSON is `body`. */
  function Frame(body: Bytes): Bytes { Ascii(HeaderText(|body|)) + [13, 10] + body }

  function Frames<M>(ms: seq<M>, dumps: M -> Bytes): Bytes
  {
    if ms == [] then [] else Frame(dumps(ms[0])) + Frames(ms[1..], dumps)
  }

  // ------------------------------------------------------------------- round trips

  lemma {:induction false} LineLenOfLine(line: Bytes, rest: Bytes, limit: nat)
    requires forall i :: 0 <= i < |line| ==> line[i] != 10
    ensures LineLen(line + [10] + rest, limit) == if limit <= |line| then limit else |line| + 1
    decreases |line|
  {
    var s := line + [10] + rest;
    if line != [] && limit > 0 {
      LineLenOfLine(line[1..], rest, limit - 1);
      assert s[1..] == line[1..] + [10] + rest;
    }
  }

  lemma {:induction false} IndexOfAfter(a: string, c: char, b: string)
    requires c !in a
    ensures IndexOf(a + [c] + b, c) == |a|
  {
    if a != [] {
      assert (a + [c] + b)[1..] == a[1..] + [c] + b;
      IndexOfAfter(a[1..], c, b);
    }
  }

  lemma {:induction false} GroupedIsDigits(s: string)
    requires forall i :: 0 <= i < |s| ==> Decimal.IsDigit(s[i])
    ensures Grouped(s) == Decimal.ParseDigits(s)
  {
    if |s| > 1 { GroupedIsDigits(s[..|s| - 1]); }
  }

  lemma StripLeftOne(c: char, s: string)
    requires IsSpace(c) && s != [] && !IsSpace(s[0])
    ensures StripLeft([c] + s) == s
  {
    assert ([c] + s)[1..] == s;
  }

  lemma StripRightTwo(s: string, c: char, d: char)
    requires IsSpace(c) && IsSpace(d) && s != [] && !IsSpace(s[|s| - 1])
    ensures StripRight(s + [c, d]) == s
  {
    var t, u := s + [c, d], s + [c];
    assert t[..|t| - 1] == u && u[..|u| - 1] == s;
    assert StripRight(u) == StripRight(s) == s;
  }

  lemma StripDigits(d: string)
    requires d != [] && forall i :: 0 <= i < |d| ==> Decimal.IsDigit(d[i])
    ensures StripRight(StripLeft(" " + d + "\r\n")) == d
  {
    assert " " + d + "\r\n" == [' '] + (d + "\r\n");
    StripLeftOne(' ', d + "\r\n");
    StripRightTwo(d, '\r', '\n');
  }

  lemma {:induction false} AllDigits(s: string)
    requires forall i :: 0 <= i < |s| ==> Decimal.IsDigit(s[i])
    ensures DigitCount(s) == |s|
  {
    if s != [] { AllDigits(s[..|s| - 1]); }
  }

  lemma PrintedLength(n: nat)
    ensures ParseInt(StripRight(StripLeft(" " + Decimal.Print(n) + "\r\n")))
            == if |Decimal.Print(n)| <= MAX_DIGITS then Decimal.Some(n) else Decimal.None
  {
    var d := Decimal.Print(n);
    StripDigits(d);
    GroupedIsDigits(d);
    AllDigits(d);
    Decimal.ParseOfPrint(n);
  }

  lemma {:induction false} StripLeftSpaces(before: string, s: string)
    requires (forall i :: 0 <= i < |before| ==> IsSpace(before[i])) && s != [] && !IsSpace(s[0])
    ensures StripLeft(before + s) == s
  {
    if before == [] {
      assert before + s == s;
    } else {
      assert (before + s)[1..] == before[1..] + s;
      StripLeftSpaces(before[1..], s);
    }
  }

  lemma {:induction false} StripRightSpaces(s: string, after: string)
    requires (forall i :: 0 <= i < |after| ==> IsSpace(after[i])) && s != [] && !IsSpace(s[|s| - 1])
    ensures StripRight(s + after) == s
    decreases |after|
  {
    if after == [] {
      assert s + after == s;
    } else {
      var n := |after| - 1;
      assert (s + after)[..|s + after| - 1] == s + after[..n];
      StripRightSpaces(s, after[..n]);
    }
  }

  lemma SignedNumerals(n: nat, d: string)
    requires d == Decimal.Print(n) && |d| <= MAX_DIGITS
    ensures ParseInt(d) == Decimal.Some(n) && ParseInt("+" + d) == Decimal.Some(n)
    ensures ParseInt("-" + d) == Decimal.Some(0 - n)
  {
    GroupedIsDigits(d);
    AllDigits(d);
    Decimal.ParseOfPrint(n);
    assert ("+" + d)[1..] == d && ("-" + d)[1..] == d;
  }

  /** Numerals are understood with any white space around them and with either sign, so that
      a negative length is seen as one. */
  lemma SpacedNumerals(before: string, n: nat, sign: string, after: string)
    requires forall i :: 0 <= i < |before| ==> IsSpace(before[i])
    requires forall i :: 0 <= i < |after| ==> IsSpace(after[i])
    requires |Decimal.Print(n)| <= MAX_DIGITS && (sign == "" || sign == "+" || sign == "-")
    ensures ParseInt(StripRight(StripLeft(before + (sign + Decimal.Print(n) + after))))
            == Decimal.Some(if sign == "-" then 0 - n else n)
  {
    var d := Decimal.Print(n);
    SignedNumerals(n, d);
    assert "" + d == d;
    Stripped(before, sign + d, after);
  }

  lemma Stripped(before: string, s: string, after: string)
    requires forall i :: 0 <= i < |before| ==> IsSpace(before[i])
    requires forall i :: 0 <= i < |after| ==> IsSpace(after[i])
    requires s != [] && !IsSpace(s[0]) && !IsSpace(s[|s| - 1])
    ensures StripRight(StripLeft(before + (s + after))) == s
  {
    StripLeftSpaces(before, s + after);
    StripRightSpaces(s, after);
  }

  lemma LowerName()
    ensures Lower("Content-Length") == "content-length"
  {
  }

  /** Print and parse of the header line. */
  lemma HeaderRoundTrip(n: nat, more: seq<Bytes>)
    ensures LengthOf([Ascii(HeaderText(n))] + more)
            == if |Decimal.Print(n)| <= MAX_DIGITS then Length(n) else NoLength(BadLength)
  {
    var text, name, value := HeaderText(n), "Content-Length", " " + Decimal.Print(n) + "\r\n";
    assert text == name + [':'] + value;
    IndexOfAfter(name, ':', value);
    assert text[..14] == name && text[15..] == value;
    LowerName();
    PrintedLength(n);
  }

  lemma BlankLine(rest: Bytes, used: nat)
    requires used <= MAX_HEADER
    ensures var h := Headers([13, 10] + rest, used);
            if used + 2 <= MAX_HEADER then h == Block([], rest) else h.BadBlock?
  {
    var s := [13, 10] + rest;
    assert s == [13] + [10] + rest;
    LineLenOfLine([13], rest, MAX_HEADER - used + 1);
    if used + 2 <= MAX_HEADER { assert s[..2] == [13, 10] && s[2..] == rest; }
  }

  lemma FirstLine(line: Bytes, rest: Bytes)
    requires |line| > 2 && line[|line| - 1] == 10 && forall i :: 0 <= i < |line| - 1 ==> line[i] != 10
    ensures LineLen(line + rest, MAX_HEADER + 1) == if |line| <= MAX_HEADER then |line| else MAX_HEADER + 1
  {
    var l := line[..|line| - 1];
    assert line + rest == l + [10] + rest;
    LineLenOfLine(l, rest, MAX_HEADER + 1);
  }

  lemma FrameHeaders(body: Bytes, tail: Bytes)
    ensures var h := Headers(Frame(body) + tail, 0);
            if |HeaderText(|body|)| + 2 <= MAX_HEADER
            then h == Block([Ascii(HeaderText(|body|))], body + tail)
            else h.BadBlock?
  {
    var s, line, rest := Frame(body) + tail, Ascii(HeaderText(|body|)), [13, 10] + (body + tail);
    assert s == line + rest;
    FirstLine(line, rest);
    if |line| <= MAX_HEADER {
      assert s[..|line|] == line && s[|line|..] == rest;
      BlankLine(body + tail, |line|);
    }
  }

  /** Reading an encoded frame gives back the message and leaves exactly what follows it,
      if and only if its body is within the limit. */
  lemma FrameRoundTripIff<M>(m: M, tail: Bytes, dumps: M -> Bytes, loads: Bytes -> Decimal.Option<M>)
    requires loads(dumps(m)) == Decimal.Some(m)
    ensures Receive(Frame(dumps(m)) + tail, loads) == Message(m, tail) <==> |dumps(m)| <= MAX_FRAME
  {
    var body := dumps(m);
    FrameHeaders(body, tail);
    HeaderRoundTrip(|body|, []);
    assert [Ascii(HeaderText(|body|))] + [] == [Ascii(HeaderText(|body|))];
    if |body| <= MAX_FRAME {
      SmallLength(|body|);
      assert (body + tail)[..|body|] == body && (body + tail)[|body|..] == tail;
    }
  }

  // ------------------------------------------------- other headers, and cut-off frames

  /** A header line as the reader takes it: one newline, at its end, and not a blank line. */
  predicate HeaderLine(line: Bytes)
  {
    && line != [] && line[|line| - 1] == 10 && (forall i :: 0 <= i < |line| - 1 ==> line[i] != 10)
    && line != [10] && line != [13, 10]
  }

  function Joined(lines: seq<Bytes>): Bytes { if lines == [] then [] else lines[0] + Joined(lines[1..]) }

  lemma LineSplit(line: Bytes, rest: Bytes, limit: nat)
    requires HeaderLine(line) && |line| <= limit
    ensures IsLine(line + rest, limit, line, rest)
  {
    var l := line[..|line| - 1];
    assert line + rest == l + [10] + rest;
    LineLenOfLine(l, rest, limit);
  }

  lemma OneHeader(line: Bytes, rest: Bytes, used: nat, h: HeaderBlock)
    requires HeaderLine(line) && used + |line| <= MAX_HEADER && h == Headers(line + rest, used)
    ensures Begun(h, [line], rest, used + |line|)
  {
    LineSplit(line, rest, MAX_HEADER - used + 1);
    assert Prefixed([], h) == h by { if h.Block? { assert [] + h.lines == h.lines; } }
    HeadersStep(h, line + rest, used, [], line, rest);
    assert [] + [line] == [line];
  }

  /** From `s` on, `lines` and then `rest` are read. */
  ghost predicate Reads(s: Bytes, used: nat, lines: seq<Bytes>, rest: Bytes)
  {
    used <= MAX_HEADER && Headers(s, used) == Block(lines, rest)
  }

  lemma ReadsCons(line: Bytes, others: seq<Bytes>, left: Bytes, rest: Bytes, used: nat)
    requires HeaderLine(line) && Reads(left, used + |line|, others, rest)
    ensures Reads(line + left, used, [line] + others, rest)
  {
    OneHeader(line, left, used, Headers(line + left, used));
  }

  lemma ReadsBlank(rest: Bytes, used: nat)
    requires used + 2 <= MAX_HEADER
    ensures Reads([13, 10] + rest, used, [], rest)
  {
    BlankLine(rest, used);
  }

  lemma JoinedCons(lines: seq<Bytes>, s: Bytes)
    requires lines != []
    ensures Joined(lines) + s == lines[0] + (Joined(lines[1..]) + s) && lines == [lines[0]] + lines[1..]
  {
  }

  /** Any header lines that fit are read as they are. */
  lemma {:induction false} HeadersOf(lines: seq<Bytes>, rest: Bytes, used: nat)
    requires forall i :: 0 <= i < |lines| ==> HeaderLine(lines[i])
    requires used + |Joined(lines)| + 2 <= MAX_HEADER
    ensures Reads(Joined(lines) + ([13, 10] + rest), used, lines, rest)
    decreases |lines|
  {
    if lines == [] {
      ReadsBlank(rest, used);
      assert Joined(lines) + ([13, 10] + rest) == [13, 10] + rest;
    } else {
      HeadersOf(lines[1..], rest, used + |lines[0]|);
      ReadsCons(lines[0], lines[1..], Joined(lines[1..]) + ([13, 10] + rest), rest, used);
      JoinedCons(lines, [13, 10] + rest);
    }
  }

  /** A header that says nothing about the length. */
  predicate OtherHeader(line: Bytes)
  {
    IsAscii(line) && var text := Text(line); Lower(text[..IndexOf(text, ':')]) != "content-length"
  }

  lemma {:induction false} LengthBehind(others: seq<Bytes>, lines: seq<Bytes>)
    requires forall i :: 0 <= i < |others| ==> OtherHeader(others[i])
    ensures LengthOf(others + lines) == LengthOf(lines)
  {
    if others == [] {
      assert others + lines == lines;
    } else {
      assert (others + lines)[0] == others[0] && (others + lines)[1..] == others[1..] + lines;
      LengthBehind(others[1..], lines);
    }
  }

  lemma SmallLength(n: nat)
    requires n <= MAX_FRAME
    ensures |Decimal.Print(n)| <= 8
  {
    assert Decimal.Pow10(8) == 100 * Decimal.Pow10(6) == 10000 * Decimal.Pow10(4) == 1000000 * Decimal.Pow10(2);
    Decimal.PrintLength(n, 8);
  }

  /** A message is read back behind any other headers and before any headers at all, as long
      as the header part fits. */
  lemma AnyHeadersRoundTrip<M>(m: M, others: seq<Bytes>, more: seq<Bytes>, tail: Bytes, dumps: M -> Bytes,
                               loads: Bytes -> Decimal.Option<M>)
    requires loads(dumps(m)) == Decimal.Some(m) && |dumps(m)| <= MAX_FRAME
    requires forall i :: 0 <= i < |others| ==> HeaderLine(others[i]) && OtherHeader(others[i])
    requires forall i :: 0 <= i < |more| ==> HeaderLine(more[i])
    requires |Joined(others + [Ascii(HeaderText(|dumps(m)|))] + more)| + 2 <= MAX_HEADER
    ensures var lines := others + [Ascii(HeaderText(|dumps(m)|))] + more;
            Receive(Joined(lines) + ([13, 10] + (dumps(m) + tail)), loads) == Message(m, tail)
  {
    OwnHeader(|dumps(m)|, more);
    HeaderAmongOthers(others, Ascii(HeaderText(|dumps(m)|)), more, dumps(m), tail, loads);
  }

  lemma AllHeaderLines(others: seq<Bytes>, own: Bytes, more: seq<Bytes>, lines: seq<Bytes>)
    requires lines == others + [own] + more && HeaderLine(own)
    requires forall i :: 0 <= i < |others| ==> HeaderLine(others[i])
    requires forall i :: 0 <= i < |more| ==> HeaderLine(more[i])
    ensures forall i :: 0 <= i < |lines| ==> HeaderLine(lines[i])
  {
    forall i | 0 <= i < |lines|
      ensures HeaderLine(lines[i])
    {
      assert lines[i] == if i < |others| then others[i] else if i == |others| then own else more[i - |others| - 1];
    }
  }

  lemma HeaderAmongOthers<M>(others: seq<Bytes>, own: Bytes, more: seq<Bytes>, body: Bytes, tail: Bytes,
                             loads: Bytes -> Decimal.Option<M>)
    requires HeaderLine(own) && LengthOf([own] + more) == Length(|body|) && |body| <= MAX_FRAME && loads(body).Some?
    requires forall i :: 0 <= i < |others| ==> HeaderLine(others[i]) && OtherHeader(others[i])
    requires forall i :: 0 <= i < |more| ==> HeaderLine(more[i])
    requires |Joined(others + [own] + more)| + 2 <= MAX_HEADER
    ensures Receive(Joined(others + [own] + more) + ([13, 10] + (body + tail)), loads)
            == Message(loads(body).value, tail)
  {
    var lines := others + [own] + more;
    AllHeaderLines(others, own, more, lines);
    HeadersOf(lines, body + tail, 0);
    assert lines == others + ([own] + more);
    LengthBehind(others, [own] + more);
    ReceivesBody(Joined(lines) + ([13, 10] + (body + tail)), lines, body, tail, loads);
  }

  /** Behind headers that announce its length, a body is taken whole. */
  lemma ReceivesBody<M>(s: Bytes, lines: seq<Bytes>, body: Bytes, tail: Bytes, loads: Bytes -> Decimal.Option<M>)
    requires Reads(s, 0, lines, body + tail) && LengthOf(lines) == Length(|body|)
    requires |body| <= MAX_FRAME && loads(body).Some?
    ensures Receive(s, loads) == Message(loads(body).value, tail)
  {
    assert (body + tail)[..|body|] == body && (body + tail)[|body|..] == tail;
  }

  lemma {:induction false} LineLenNoNewline(s: Bytes, limit: nat)
    requires forall i :: 0 <= i < |s| ==> s[i] != 10
    ensures LineLen(s, limit) == if |s| <= limit then |s| else limit
  {
    if s != [] && limit > 0 { LineLenNoNewline(s[1..], limit - 1); }
  }

  lemma CutLine(s: Bytes, used: nat)
    requires used + |s| <= MAX_HEADER && forall i :: 0 <= i < |s| ==> s[i] != 10
    ensures Headers(s, used) == BadBlock(if s == [] then EofInHeaders else IncompleteLine)
  {
    LineLenNoNewline(s, MAX_HEADER - used + 1);
  }

  /** The header a frame is sent with. */
  lemma OwnHeader(n: nat, more: seq<Bytes>)
    requires n <= MAX_FRAME
    ensures var line := Ascii(HeaderText(n));
            && HeaderLine(line) && |line| + 2 <= MAX_HEADER
            && LengthOf([line] + more) == Length(n) && LengthOf([line]) == Length(n)
  {
    SmallLength(n);
    HeaderRoundTrip(n, more);
    HeaderRoundTrip(n, []);
    assert [Ascii(HeaderText(n))] + [] == [Ascii(HeaderText(n))];
  }

  lemma CutHeader(line: Bytes, s: Bytes)
    requires HeaderLine(line) && |line| + 2 <= MAX_HEADER && (s < line || s == line || s == line + [13])
    ensures Headers(s, 0).BadBlock?
  {
    if s < line {
      CutLine(s, 0);
    } else {
      var left: Bytes := if s == line then [] else [13];
      assert s == line + left;
      OneHeader(line, left, 0, Headers(s, 0));
      CutLine(left, |line|);
    }
  }

  lemma CutBody<M>(line: Bytes, part: Bytes, n: nat, loads: Bytes -> Decimal.Option<M>)
    requires HeaderLine(line) && |line| + 2 <= MAX_HEADER && LengthOf([line]) == Length(n) && |part| < n
    ensures Receive(line + ([13, 10] + part), loads).Failure?
  {
    ReadsBlank(part, |line|);
    ReadsCons(line, [], [13, 10] + part, part, 0);
    assert [line] + [] == [line];
  }

  lemma CutAnywhere<M>(line: Bytes, body: Bytes, s: Bytes, loads: Bytes -> Decimal.Option<M>)
    requires HeaderLine(line) && |line| + 2 <= MAX_HEADER && LengthOf([line]) == Length(|body|)
    requires s < line + [13, 10] + body
    ensures Receive(s, loads).Failure?
  {
    var n := |line|;
    if |s| < n + 2 {
      assert if |s| < n then s == line[..|s|] else if |s| == n then s == line else s == line + [13];
      CutHeader(line, s);
    } else {
      assert s == line + ([13, 10] + body[..|s| - n - 2]);
      CutBody(line, body[..|s| - n - 2], |body|, loads);
    }
  }

  /** A frame cut off anywhere is an error, never a message. */
  lemma TruncatedFrame<M>(body: Bytes, s: Bytes, loads: Bytes -> Decimal.Option<M>)
    requires |body| <= MAX_FRAME && s < Frame(body)
    ensures Receive(s, loads).Failure?
  {
    OwnHeader(|body|, []);
    CutAnywhere(Ascii(HeaderText(|body|)), body, s, loads);
  }

  /** Reading `k` frames in a row. */
  function ReceiveMany<M>(s: Bytes, k: nat, loads: Bytes -> Decimal.Option<M>): Received<seq<M>>
    decreases k
  {
    if k == 0 then Message([], s) else
    match Receive(s, loads)
    case Failure(e) => Failure(e)
    case Message(m, rest) =>
      match ReceiveMany(rest, k - 1, loads)
      case Failure(e) => Failure(e)
      case Message(ms, end) => Message([m] + ms, end)
  }

  lemma {:induction false} FramesRoundTrip<M>(ms: seq<M>, tail: Bytes, dumps: M -> Bytes,
                                              loads: Bytes -> Decimal.Option<M>)
    requires forall i :: 0 <= i < |ms| ==> loads(dumps(ms[i])) == Decimal.Some(ms[i]) && |dumps(ms[i])| <= MAX_FRAME
    ensures ReceiveMany(Frames(ms, dumps) + tail, |ms|, loads) == Message(ms, tail)
  {
    if ms == [] {
      assert Frames(ms, dumps) + tail == tail;
    } else {
      var rest := Frames(ms[1..], dumps) + tail;
      assert Frames(ms, dumps) + tail == Frame(dumps(ms[0])) + rest;
      FrameRoundTripIff(ms[0], rest, dumps, loads);
      FramesRoundTrip(ms[1..], tail, dumps, loads);
      assert ms == [ms[0]] + ms[1..];
    }
  }

  lemma NextFrame<M>(ms: seq<M>, i: nat, dumps: M -> Bytes, loads: Bytes -> Decimal.Option<M>)
    requires i < |ms| && loads(dumps(ms[i])) == Decimal.Some(ms[i]) && |dumps(ms[i])| <= MAX_FRAME
    ensures Receive(Frames(ms[i..], dumps), loads) == Message(ms[i], Frames(ms[i + 1..], dumps))
  {
    var left := ms[i..];
    assert left[0] == ms[i] && left[1..] == ms[i + 1..];
    FrameRoundTripIff(ms[i], Frames(ms[i + 1..], dumps), dumps, loads);
  }

  // --------------------------------------------------------------------- the reader

  class Stream {
    var rest: Bytes

    constructor (content: Bytes)
      ensures rest == content
    {
      rest := content;
    }

    method ReadLine(limit: nat) returns (line: Bytes)
      modifies this
      ensures IsLine(old(rest), limit, line, rest)
    {
      var k := LineLen(rest, limit);
      line, rest := rest[..k], rest[k..];
    }

    method Read(n: nat) returns (body: Bytes)
      modifies this
      ensures body == old(if n <= |rest| then rest[..n] else rest)
      ensures rest == old(if n <= |rest| then rest[n..] else [])
    {
      var k := if n <= |rest| then n else |rest|;
      body, rest := rest[..k], rest[k..];
    }

    /** The header loop of `read_frame`: at most 8193 bytes, whatever the stream holds. */
    method ReadHeaders() returns (h: HeaderBlock)
      modifies this
      ensures h == Headers(old(rest), 0)
      ensures h.Block? ==> rest == h.rest
      ensures |rest| <= |old(rest)| <= |rest| + MAX_HEADER + 1
    {
      var lines: seq<Bytes>, used := [], 0;
      ghost var whole := Headers(rest, 0);
      while true
        invariant used <= MAX_HEADER && |old(rest)| == |rest| + used
        invariant Begun(whole, lines, rest, used)
        decreases MAX_HEADER - used
      {
        ghost var s := rest;
        var line := ReadLine(MAX_HEADER - used + 1);
        HeadersStep(whole, s, used, lines, line, rest);
        if line == [] { return BadBlock(EofInHeaders); }
        used := used + |line|;
        if used > MAX_HEADER { return BadBlock(HeaderTooLong); }
        if line[|line| - 1] != 10 { return BadBlock(IncompleteLine); }
        if line == [13, 10] || line == [10] { return Block(lines, rest); }
        lines := lines + [line];
      }
    }

    /** The search for the length. */
    method FindLength(lines: seq<Bytes>) returns (n: Length)
      ensures n == LengthOf(lines)
    {
      for i := 0 to |lines|
        invariant LengthOf(lines) == LengthOf(lines[i..])
      {
        assert lines[i..][0] == lines[i] && lines[i..][1..] == lines[i + 1..];
        if !IsAscii(lines[i]) { return NoLength(NotAscii); }
        var text := Text(lines[i]);
        var colon := IndexOf(text, ':');
        if Lower(text[..colon]) == "content-length" {
          var v := ParseInt(StripRight(StripLeft(if colon < |text| then text[colon + 1..] else "")));
          return if v.None? then NoLength(BadLength) else Length(v.value);
        }
      }
      n := NoLength(MissingLength);
    }

    /** `read_frame`. */
    method ReadFrame<M>(loads: Bytes -> Decimal.Option<M>) returns (r: Received<M>)
      modifies this
      ensures r == Receive(old(rest), loads)
      ensures r.Message? ==> rest == r.rest
    {
      var h := ReadHeaders();
      if h.BadBlock? { return Failure(h.error); }
      var n := FindLength(h.lines);
      if n.NoLength? { return Failure(n.error); }
      if n.value < 0 || n.value > MAX_FRAME { return Failure(BodySize); }
      var body := Read(n.value);
      if |body| != n.value { return Failure(EofInBody); }
      var m := loads(body);
      r := if m.None? then Failure(BadJson) else Message(m.value, rest);
    }
  }

  // --------------------------------------------------------------------- the client

  /** The `id` of a response: any JSON value, of which only numbers and truth values can
      equal an integer in Python. */
  datatype JsonId = Number(value: real) | Truth(flag: bool) | NoNumber

  predicate Equals(id: JsonId, n: int)
  {
    match id
    case Number(v) => v == n as real
    case Truth(b) => n == if b then 1 else 0
    case NoNumber => false
  }

  /** A response object of section 5 of JSON-RPC 2.0. */
  datatype Response<R> = Response(id: JsonId, failed: bool, result: R)

  /** `Lost` is a request that could not be written or was not answered in time. */
  datatype Answer<R> = Result(value: R) | Closed | Lost | Transport(error: Error) | WrongId | RpcError

  /** What a request with this id makes of a response. */
  function Judge<R>(response: Response<R>, id: int): Answer<R>
  {
    if !Equals(response.id, id) then WrongId
    else if response.failed then RpcError
    else Result(response.result)
  }

  /** A request returns a result if and only if the response carries its id and no error;
      `true` and `false` pass for the numbers 1 and 0. */
  lemma AcceptedIff<R>(response: Response<R>, id: int)
    ensures Judge(response, id) == Result(response.result) <==> Equals(response.id, id) && !response.failed
    ensures Judge(response, id) == RpcError <==> Equals(response.id, id) && response.failed
    ensures Judge(response.(id := Truth(true)), id) == Judge(response.(id := Number(1.0)), id)
    ensures Judge(response.(id := Truth(false)), id) == Judge(response.(id := Number(0.0)), id)
  {
  }

  function Refusals<R>(n: nat): seq<Answer<R>> { if n == 0 then [] else [Closed] + Refusals(n - 1) }

  /** What `n` requests from id `id` on make of the bytes the daemon sends, each reading
      one frame with `receive`; those with an id in `lost` are not exchanged. */
  function Answers<R>(s: Bytes, id: nat, n: nat, lost: set<nat>, receive: Bytes -> Received<Response<R>>)
    : seq<Answer<R>>
    decreases n
  {
    if n == 0 then []
    else if id in lost then [Lost] + Refusals(n - 1)
    else
      match receive(s)
      case Failure(e) => [Transport(e)] + Refusals(n - 1)
      case Message(m, rest) => [Judge(m, id)] + Answers(rest, id + 1, n - 1, lost, receive)
  }

  lemma {:induction false} AnswersFollowFrames<R>(rs: seq<Response<R>>, id: nat, at: seq<Bytes>, lost: set<nat>,
                                                  receive: Bytes -> Received<Response<R>>)
    requires |at| == |rs| + 1 && forall i :: 0 <= i < |rs| ==> receive(at[i]) == Message(rs[i], at[i + 1])
    requires forall i :: id <= i < id + |rs| ==> i !in lost
    ensures var answers := Answers(at[0], id, |rs|, lost, receive);
            |answers| == |rs| && forall i :: 0 <= i < |rs| ==> answers[i] == Judge(rs[i], id + i)
  {
    if rs != [] {
      AnswersFollowFrames(rs[1..], id + 1, at[1..], lost, receive);
      assert Answers(at[0], id, |rs|, lost, receive)
          == [Judge(rs[0], id)] + Answers(at[1], id + 1, |rs| - 1, lost, receive);
    }
  }

  /** Reading from a daemon that has only `ms` left to send gives them one by one. */
  ghost predicate Delivers<M>(receive: Bytes -> Received<M>, ms: seq<M>, dumps: M -> Bytes)
  {
    forall i :: 0 <= i < |ms| ==> receive(Frames(ms[i..], dumps)) == Message(ms[i], Frames(ms[i + 1..], dumps))
  }

  lemma ReceiverDelivers<M>(ms: seq<M>, dumps: M -> Bytes, loads: Bytes -> Decimal.Option<M>)
    requires forall i :: 0 <= i < |ms| ==> loads(dumps(ms[i])) == Decimal.Some(ms[i]) && |dumps(ms[i])| <= MAX_FRAME
    ensures Delivers(Receiver(loads), ms, dumps)
  {
    forall i | 0 <= i < |ms|
      ensures Receiver(loads)(Frames(ms[i..], dumps)) == Message(ms[i], Frames(ms[i + 1..], dumps))
    {
      NextFrame(ms, i, dumps, loads);
    }
  }

  lemma DeliveredAnswers<R>(rs: seq<Response<R>>, id: nat, lost: set<nat>, dumps: Response<R> -> Bytes,
                            receive: Bytes -> Received<Response<R>>)
    requires Delivers(receive, rs, dumps) && forall i :: id <= i < id + |rs| ==> i !in lost
    ensures var answers := Answers(Frames(rs, dumps), id, |rs|, lost, receive);
            |answers| == |rs| && forall i :: 0 <= i < |rs| ==> answers[i] == Judge(rs[i], id + i)
  {
    var at := seq(|rs| + 1, i requires 0 <= i <= |rs| => Frames(rs[i..], dumps));
    assert rs[0..] == rs;
    AnswersFollowFrames(rs, id, at, lost, receive);
  }

  /** A daemon that sends the frames `rs`, in that order, answers request `i` with frame
      `i`: a request succeeds exactly when its own frame carries its own id and no error,
      so one stray frame displaces every answer after it. */
  lemma AnswersPointwise<R>(rs: seq<Response<R>>, id: nat, lost: set<nat>, dumps: Response<R> -> Bytes,
                            loads: Bytes -> Decimal.Option<Response<R>>)
    requires forall i :: id <= i < id + |rs| ==> i !in lost
    requires forall i :: 0 <= i < |rs| ==> loads(dumps(rs[i])) == Decimal.Some(rs[i]) && |dumps(rs[i])| <= MAX_FRAME
    ensures var answers := Answers(Frames(rs, dumps), id, |rs|, lost, Receiver(loads));
            |answers| == |rs| && forall i :: 0 <= i < |rs| ==> answers[i] == Judge(rs[i], id + i)
  {
    ReceiverDelivers(rs, dumps, loads);
    DeliveredAnswers(rs, id, lost, dumps, Receiver(loads));
  }

  ghost predicate AnswersInOrder<R>(rs: seq<Response<R>>, id: nat)
  {
    forall i :: 0 <= i < |rs| ==> Equals(rs[i].id, id + i)
  }

  /** Although several ids equal the same integer, none equals two. */
  lemma EqualsOne(id: JsonId, m: int, n: int)
    requires Equals(id, m) && m != n
    ensures !Equals(id, n)
  {
  }

  lemma DisplacedJudgements<R>(good: seq<Response<R>>, stray: Response<R>, j: nat, id: nat, sent: seq<Response<R>>)
    requires j <= |good| && !Equals(stray.id, id + j) && AnswersInOrder(good, id)
    requires sent == good[..j] + [stray] + good[j..]
    ensures forall i :: 0 <= i < |sent| ==> (Judge(sent[i], id + i) == WrongId <==> i >= j)
  {
    forall i | 0 <= i < |sent|
      ensures Judge(sent[i], id + i) == WrongId <==> i >= j
    {
      assert sent[i] == if i < j then good[i] else if i == j then stray else good[i - 1];
      if i > j { EqualsOne(good[i - 1].id, id + i - 1, id + i); }
    }
  }

  /** One extra frame in front of answer `j` of a daemon that answers in order: the client
      gets every answer before it, and from there on fails every request with a wrong id,
      although the right answers are all sent. */
  lemma StrayFrameDisplaces<R>(good: seq<Response<R>>, stray: Response<R>, j: nat, id: nat,
                               dumps: Response<R> -> Bytes, loads: Bytes -> Decimal.Option<Response<R>>)
    requires j <= |good| && !Equals(stray.id, id + j) && AnswersInOrder(good, id)
    requires forall m :: m in [stray] + good ==> loads(dumps(m)) == Decimal.Some(m) && |dumps(m)| <= MAX_FRAME
    ensures var sent := good[..j] + [stray] + good[j..];
            var answers := Answers(Frames(sent, dumps), id, |sent|, {}, Receiver(loads));
            |answers| == |sent| && forall i :: 0 <= i < |answers| ==> (answers[i] == WrongId <==> i >= j)
  {
    var sent := good[..j] + [stray] + good[j..];
    forall i | 0 <= i < |sent|
      ensures loads(dumps(sent[i])) == Decimal.Some(sent[i]) && |dumps(sent[i])| <= MAX_FRAME
    {
      assert sent[i] == ([stray] + good)[if i < j then i + 1 else if i == j then 0 else i];
    }
    AnswersPointwise(sent, id, {}, dumps, loads);
    DisplacedJudgements(good, stray, j, id, sent);
  }

  class Client<R> {
    var nextId: nat
    var closed: bool
    const replies: Stream

    constructor (replies: Stream)
      ensures nextId == 1 && !closed && this.replies == replies
    {
      nextId, closed, this.replies := 1, false, replies;
    }

    /** `request`: a lost exchange or a transport error closes the client, a wrong id does
        not. `lost` says that the request is not written or not answered in time. */
    method Request(loads: Bytes -> Decimal.Option<Response<R>>, lost: bool) returns (a: Answer<R>)
      modifies this, replies
      ensures nextId == old(nextId) + (if old(closed) then 0 else 1)
      ensures a.Closed? <==> old(closed)
      ensures !old(closed) && lost ==> a == Lost && closed
      ensures !old(closed) && !lost ==>
                match Receive(old(replies.rest), loads)
                case Failure(e) => a == Transport(e) && closed
                case Message(m, rest) => a == Judge(m, old(nextId)) && !closed && replies.rest == rest
      ensures old(closed) ==> closed
    {
      if closed { return Closed; }
      var id := nextId;
      nextId := nextId + 1;
      if lost {
        closed := true;
        return Lost;
      }
      var r := replies.ReadFrame(loads);
      if r.Failure? {
        closed := true;
        return Transport(r.error);
      }
      a := Judge(r.value, id);
    }

    /** `n` requests in a row. */
    method RequestMany(n: nat, loads: Bytes -> Decimal.Option<Response<R>>, lost: set<nat>)
      returns (out: seq<Answer<R>>)
      modifies this, replies
      ensures out == if old(closed) then Refusals(n)
                     else Answers(old(replies.rest), old(nextId), n, lost, Receiver(loads))
      decreases n
    {
      if n == 0 { return []; }
      var first := Request(loads, nextId in lost);
      var others := RequestMany(n - 1, loads, lost);
      out := [first] + others;
    }
  }
}
