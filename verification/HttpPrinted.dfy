/**
 Responses as servers print them (sections 3 to 7 of RFC 9112), written out octet by octet: what the receive
 loop of ResolveHttpRequest (main.cpp) makes of their status line, field lines and body.
 */
module HttpPrinted {
  import opened Wrappers
  import opened Text
  import opened Chunked
  import opened HttpResponse

  // ---------------------------------------------------------------- printing

  /** A field line: a name in any case, and blanks around the value. */
  datatype FieldLine = FieldLine(name: string, left: string, value: string, right: string)

  datatype Heading = Heading(version: string, status: nat, reason: string, fields: seq<FieldLine>)

  /** Text on one line, without blanks at its ends. */
  predicate OneLine(s: string) {
    && '\r' !in s && '\n' !in s
    && (s != "" ==> s[0] !in {' ', '\t'} && s[|s| - 1] !in {' ', '\t'})
  }

  predicate Blanks(s: string) {
    forall i :: 0 <= i < |s| ==> s[i] == ' ' || s[i] == '\t'
  }

  predicate PlainField(f: FieldLine) {
    f.name != "" && OneLine(f.name) && ':' !in f.name && Blanks(f.left) && OneLine(f.value) && Blanks(f.right)
  }

  /** The version is one word; any status and any reason on one line. */
  predicate Plain(h: Heading) {
    && h.version != "" && (forall i :: 0 <= i < |h.version| ==> h.version[i] != ' ' && !(9 <= h.version[i] as int <= 13))
    && OneLine(h.reason)
    && forall i :: 0 <= i < |h.fields| ==> PlainField(h.fields[i])
  }

  function StatusLine(h: Heading): string {
    h.version + (" " + Decimal(h.status) + (" " + h.reason))
  }

  function PrintField(f: FieldLine): string {
    f.name + ":" + (f.left + f.value + f.right)
  }

  function PrintFields(fields: seq<FieldLine>): string {
    if fields == [] then "" else "\r\n" + (PrintField(fields[0]) + PrintFields(fields[1..]))
  }

  /** The header block up to the blank line. */
  function Block(h: Heading): string {
    StatusLine(h) + PrintFields(h.fields)
  }

  // ---------------------------------------------------------------- what it says

  predicate ReadAs(headers: seq<(string, string)>, fields: seq<FieldLine>) {
    && |headers| == |fields|
    && forall i :: 0 <= i < |fields| ==> InSmall(fields[i].name, headers[i].0) && headers[i].1 == fields[i].value
  }

  predicate Says(head: Head, h: Heading) {
    head.version == h.version && head.status == h.status && head.reason == h.reason && ReadAs(head.headers, h.fields)
  }

  /** The value of the first field of that name, or nothing. */
  function FirstValue(fields: seq<FieldLine>, small: string): string {
    if fields == [] then "" else if InSmall(fields[0].name, small) then fields[0].value else FirstValue(fields[1..], small)
  }

  /** The word stands somewhere in the value, in any case. */
  predicate Mentions(value: string, small: string) {
    exists i :: 0 <= i <= |value| - |small| && MentionedAt(value, small, i)
  }

  predicate MentionedAt(value: string, small: string, i: nat)
    requires i + |small| <= |value|
  {
    forall j :: 0 <= j < |small| ==> small[j] == SmallLetter(value[i + j])
  }

  predicate Chunking(h: Heading) {
    Mentions(FirstValue(h.fields, "transfer-encoding"), "chunked")
  }

  function LengthText(h: Heading): string {
    FirstValue(h.fields, "content-length")
  }

  // ---------------------------------------------------------------- how it is read: the status line

  lemma BlanksAround(left: string, s: string, right: string)
    requires Blanks(left) && OneLine(s) && Blanks(right)
    ensures TrimAscii(left + s + right) == s
  {
    TrimUndoesPadding(left, s, right);
  }

  lemma {:induction false} TokenEndAt(s: string, i: nat, e: nat)
    requires i <= e < |s| && IsSpace(s[e]) && forall j :: i <= j < e ==> !IsSpace(s[j])
    ensures TokenEnd(s, i) == e
    decreases e - i
  {
    if i < e {
      TokenEndAt(s, i + 1, e);
    }
  }

  lemma {:induction false} DigitsEndAt(s: string, i: nat, e: nat)
    requires i <= e <= |s| && Digits(s[i..e]) && (e < |s| ==> Digit(s[e]) >= 10)
    ensures DigitsEnd(s, 10, i) == e
    decreases e - i
  {
    if i < e {
      assert s[i..e][0] == s[i] && s[i..e][1..] == s[i + 1..e];
      DigitsEndAt(s, i + 1, e);
    }
  }

  lemma StatusReads(n: nat, rest: string)
    requires rest != "" && rest[0] == ' '
    ensures ReadInt(" " + Decimal(n) + rest) == if n < 0x8000_0000 then Some((n, rest)) else None
  {
    var digits := Decimal(n);
    var s := " " + digits + rest;
    assert s[1] == digits[0] && s[1..1 + |digits|] == digits && s[1 + |digits|..] == rest;
    assert SpaceEnd(s, 0) == SpaceEnd(s, 1) == 1;
    DigitsEndAt(s, 1, 1 + |digits|);
  }

  lemma ReasonReads(reason: string)
    requires OneLine(reason)
    ensures Find(" " + reason, "\n").None? && TrimAscii(" " + reason) == reason
  {
    var rest := " " + reason;
    assert forall i: nat :: Occurs(rest, "\n", i) ==> rest[i..i + 1][0] == '\n';
    BlanksAround(" ", reason, "");
    assert " " + reason + "" == rest;
  }

  lemma VersionReads(version: string, rest: string)
    requires version != "" && forall i :: 0 <= i < |version| ==> version[i] != ' ' && !(9 <= version[i] as int <= 13)
    requires rest != "" && rest[0] == ' '
    ensures SpaceEnd(version + rest, 0) == 0 && TokenEnd(version + rest, 0) == |version|
  {
    assert (version + rest)[0] == version[0];
    TokenEndAt(version + rest, 0, |version|);
  }

  lemma StatusLineParts(version: string, rest: string, n: nat, reason: string)
    requires SpaceEnd(version + rest, 0) == 0 && TokenEnd(version + rest, 0) == |version|
    requires ReadInt(rest) == if n < 0x8000_0000 then Some((n, " " + reason)) else None
    requires Find(" " + reason, "\n").None? && TrimAscii(" " + reason) == reason
    ensures ParseStatusLine(version + rest) ==
            if "HTTP/" <= version && 100 <= n <= 999 then Ok((version, n, reason)) else Err(BadStatusLine)
  {
    assert (version + rest)[0..|version|] == version && (version + rest)[|version|..] == rest;
  }

  lemma StatusLineReads(h: Heading)
    requires Plain(h)
    ensures ParseStatusLine(StatusLine(h)) ==
            if "HTTP/" <= h.version && 100 <= h.status <= 999 then Ok((h.version, h.status, h.reason)) else Err(BadStatusLine)
  {
    var reason := " " + h.reason;
    var rest := " " + Decimal(h.status) + reason;
    VersionReads(h.version, rest);
    StatusReads(h.status, reason);
    ReasonReads(h.reason);
    StatusLineParts(h.version, rest, h.status, h.reason);
  }

  // ---------------------------------------------------------------- the field lines

  lemma ColonAt(name: string, rest: string)
    requires ':' !in name
    ensures Find(name + ":" + rest, ":") == Some(|name|)
  {
    var s := name + ":" + rest;
    assert s[|name|..|name| + 1] == ":" && Occurs(s, ":", |name|);
    forall j | 0 <= j < |name| ensures !Occurs(s, ":", j) {
      assert s[j..j + 1][0] == name[j];
    }
  }

  lemma FieldReads(f: FieldLine)
    requires PlainField(f)
    ensures Field(PrintField(f)) == [(LowerAscii(f.name), f.value)] && InSmall(f.name, LowerAscii(f.name))
  {
    var text, line := f.left + f.value + f.right, PrintField(f);
    ColonAt(f.name, text);
    assert line[..|f.name|] == f.name && line[|f.name| + 1..] == text;
    BlanksAround("", f.name, "");
    assert "" + f.name + "" == f.name;
    BlanksAround(f.left, f.value, f.right);
  }

  lemma NoLineEnd(line: string)
    requires '\r' !in line
    ensures Find(line, "\r\n").None?
  {
    assert forall i: nat :: Occurs(line, "\r\n", i) ==> line[i..i + 2][0] == line[i] == '\r';
  }

  /** The field lines from the first one on, without a line end in front. */
  function FieldsText(fields: seq<FieldLine>): string {
    if fields == [] then "" else PrintField(fields[0]) + PrintFields(fields[1..])
  }

  lemma LineTaken(line: string, fields: seq<FieldLine>)
    requires '\r' !in line
    ensures FirstLine(line + PrintFields(fields)) == line && AfterLine(line + PrintFields(fields)) == FieldsText(fields)
  {
    var block := line + PrintFields(fields);
    NoLineEnd(line);
    if fields == [] {
      assert block == line;
    } else {
      var rest := FieldsText(fields);
      LineEnd(line, rest);
      assert block == line + "\r\n" + rest && block[..|line|] == line && block[|line| + 2..] == rest;
    }
  }

  lemma FirstLineRead(line: string, fields: seq<FieldLine>)
    requires line != "" && '\r' !in line
    ensures Fields(line + PrintFields(fields)) == Field(line) + Fields(FieldsText(fields))
  {
    LineTaken(line, fields);
  }

  lemma FirstFieldRead(f: FieldLine, fields: seq<FieldLine>)
    requires PlainField(f)
    ensures Fields(PrintField(f) + PrintFields(fields)) == [(LowerAscii(f.name), f.value)] + Fields(FieldsText(fields))
    ensures InSmall(f.name, LowerAscii(f.name))
  {
    FieldReads(f);
    FieldIsOneLine(f);
    FirstLineRead(PrintField(f), fields);
  }

  lemma FieldIsOneLine(f: FieldLine)
    requires PlainField(f)
    ensures PrintField(f) != "" && '\r' !in PrintField(f)
  {
  }

  lemma {:induction false} FieldsRead(fields: seq<FieldLine>)
    requires forall i :: 0 <= i < |fields| ==> PlainField(fields[i])
    ensures ReadAs(Fields(FieldsText(fields)), fields)
  {
    if fields != [] {
      FirstFieldRead(fields[0], fields[1..]);
      FieldsRead(fields[1..]);
      OneMoreRead((LowerAscii(fields[0].name), fields[0].value), Fields(FieldsText(fields[1..])), fields);
    }
  }

  lemma OneMoreRead(first: (string, string), rest: seq<(string, string)>, fields: seq<FieldLine>)
    requires fields != [] && ReadAs(rest, fields[1..]) && InSmall(fields[0].name, first.0) && first.1 == fields[0].value
    ensures ReadAs([first] + rest, fields)
  {
    assert forall i :: 1 <= i < |fields| ==> fields[i] == fields[1..][i - 1];
  }

  lemma StatusIsOneLine(h: Heading)
    requires Plain(h)
    ensures '\r' !in StatusLine(h)
  {
    assert '\r' !in Decimal(h.status) && '\r' !in h.version;
  }

  /** The block is read as what was printed, and refused just when its version or its status is not one of HTTP. */
  lemma PrintedHead(h: Heading)
    requires Plain(h)
    ensures var r := ParseHead(Block(h));
            if "HTTP/" <= h.version && 100 <= h.status <= 999 then r.Ok? && Says(r.value, h) else r == Err(BadStatusLine)
  {
    StatusLineReads(h);
    StatusIsOneLine(h);
    LineTaken(StatusLine(h), h.fields);
    FieldsRead(h.fields);
  }

  // ---------------------------------------------------------------- where the block ends

  /** No line end is followed by another. */
  predicate NoBlankLine(s: string) {
    forall i :: 0 <= i < |s| && s[i] == '\r' ==> i + 2 < |s| && s[i + 2] != '\r'
  }

  lemma {:induction false} FieldsHaveNoBlankLine(line: string, fields: seq<FieldLine>)
    requires '\r' !in line && forall i :: 0 <= i < |fields| ==> PlainField(fields[i])
    ensures NoBlankLine(line + PrintFields(fields))
    decreases |fields|
  {
    if fields != [] {
      var first := PrintField(fields[0]);
      FieldsHaveNoBlankLine(first, fields[1..]);
      var rest := first + PrintFields(fields[1..]);
      assert rest[0] == fields[0].name[0];
      var s := line + PrintFields(fields);
      assert s == line + ("\r\n" + rest);
      assert forall i :: |line| + 2 <= i < |s| ==> s[i] == rest[i - |line| - 2];
    }
  }

  lemma TwoReturns(s: string, j: nat)
    requires Occurs(s, "\r\n\r\n", j)
    ensures j + 4 <= |s| && s[j] == '\r' && s[j + 2] == '\r'
  {
    assert s[j..j + 4][0] == s[j] && s[j..j + 4][2] == s[j + 2];
  }

  lemma BlankLineBehind(block: string, rest: string)
    requires NoBlankLine(block)
    ensures Find(block + "\r\n\r\n" + rest, "\r\n\r\n") == Some(|block|)
  {
    var s := block + "\r\n\r\n" + rest;
    assert s[|block|..|block| + 4] == "\r\n\r\n" && Occurs(s, "\r\n\r\n", |block|);
    forall j | 0 <= j < |block| ensures !Occurs(s, "\r\n\r\n", j) {
      if Occurs(s, "\r\n\r\n", j) {
        TwoReturns(s, j);
      }
    }
  }

  lemma PrintedEnds(h: Heading, rest: string)
    requires Plain(h)
    ensures Find(Block(h) + "\r\n\r\n" + rest, "\r\n\r\n") == Some(|Block(h)|)
  {
    StatusIsOneLine(h);
    FieldsHaveNoBlankLine(StatusLine(h), h.fields);
    BlankLineBehind(Block(h), rest);
  }

  // ---------------------------------------------------------------- numbers as std::stoull takes them

  /** Blanks, a sign, digits, and what is left over. */
  datatype Numeral = Numeral(space: string, sign: string, digits: string, tail: string)

  function PrintNumeral(m: Numeral): string {
    m.space + (m.sign + (m.digits + m.tail))
  }

  predicate PlainNumeral(m: Numeral) {
    && (forall i :: 0 <= i < |m.space| ==> m.space[i] == ' ' || 9 <= m.space[i] as int <= 13)
    && (m.sign != "" ==> |m.sign| == 1 && m.sign[0] in {'+', '-'})
    && Digits(m.digits)
    && (m.tail != "" ==> !('0' <= m.tail[0] <= '9'))
    && (m.sign == "" && m.digits == "" && m.tail != "" ==>
          m.tail[0] !in {' ', '+', '-'} && !(9 <= m.tail[0] as int <= 13))
  }

  /** The number it stands for: a minus sign negates modulo 2^64. */
  function Meant(m: Numeral): nat
    requires Value(m.digits, 10) < 0x1_0000_0000_0000_0000
  {
    var v := Value(m.digits, 10);
    if Minus(m) && v > 0 then 0x1_0000_0000_0000_0000 - v else v
  }

  predicate Minus(m: Numeral) {
    m.sign != "" && m.sign[0] == '-'
  }

  lemma {:induction false} SpaceEndAt(s: string, i: nat, e: nat)
    requires i <= e <= |s| && (forall j :: i <= j < e ==> IsSpace(s[j])) && (e < |s| ==> !IsSpace(s[e]))
    ensures SpaceEnd(s, i) == e
    decreases e - i
  {
    if i < e {
      SpaceEndAt(s, i + 1, e);
    }
  }

  lemma SpaceBefore(space: string, rest: string)
    requires forall i :: 0 <= i < |space| ==> space[i] == ' ' || 9 <= space[i] as int <= 13
    requires rest != "" ==> rest[0] != ' ' && !(9 <= rest[0] as int <= 13)
    ensures SpaceEnd(space + rest, 0) == |space|
  {
    SpaceEndAt(space + rest, 0, |space|);
  }

  lemma DigitsBehind(before: string, digits: string, tail: string)
    requires Digits(digits) && (tail != "" ==> !('0' <= tail[0] <= '9'))
    ensures DigitsEnd(before + (digits + tail), 10, |before|) == |before + digits|
    ensures (before + (digits + tail))[|before|..|before + digits|] == digits
  {
    var s := before + (digits + tail);
    assert s[|before|..|before + digits|] == digits;
    DigitsEndAt(s, |before|, |before + digits|);
  }

  lemma NumeralSign(m: Numeral)
    requires PlainNumeral(m)
    ensures var text, i := PrintNumeral(m), |m.space|;
            && SpaceEnd(text, 0) == i
            && Minus(m) == (i < |text| && text[i] == '-')
            && (m.sign != "" <==> i < |text| && (text[i] == '+' || text[i] == '-'))
  {
    var rest := m.sign + (m.digits + m.tail);
    SpaceBefore(m.space, rest);
    assert rest != "" ==> (m.space + rest)[|m.space|] == rest[0];
  }

  lemma NumeralDigits(m: Numeral)
    requires PlainNumeral(m)
    ensures var text, first := PrintNumeral(m), |m.space| + |m.sign|;
            DigitsEnd(text, 10, first) == first + |m.digits| && text[first..first + |m.digits|] == m.digits
  {
    DigitsBehind(m.space + m.sign, m.digits, m.tail);
    assert PrintNumeral(m) == m.space + m.sign + (m.digits + m.tail);
  }

  lemma NegatedWraps(v: nat)
    requires v < ULLONG_MODULUS
    ensures Negated(v, true) == if v > 0 then 0x1_0000_0000_0000_0000 - v else 0
  {
  }

  lemma StoullAt(s: string, i: nat, minus: bool, first: nat, digits: string)
    requires i <= |s| && SpaceEnd(s, 0) == i && minus == (i < |s| && s[i] == '-')
    requires first == (if i < |s| && (s[i] == '+' || s[i] == '-') then i + 1 else i)
    requires first + |digits| <= |s| && DigitsEnd(s, 10, first) == first + |digits| && s[first..first + |digits|] == digits
    ensures Stoull(s, 10) == NumberAt(digits, 10, minus, first + |digits|)
  {
    assert PrefixEnd(s, 10, first) == first;
  }

  lemma NumeralReads(m: Numeral)
    requires PlainNumeral(m)
    ensures var r := Stoull(PrintNumeral(m), 10);
            if m.digits == "" then r == Err(InvalidArgument)
            else if Value(m.digits, 10) >= 0x1_0000_0000_0000_0000 then r == Err(OutOfRange)
            else r.Ok? && r.value.0 == Meant(m)
  {
    NumeralSign(m);
    NumeralDigits(m);
    StoullAt(PrintNumeral(m), |m.space|, Minus(m), |m.space| + |m.sign|, m.digits);
    NumberReads(m, |m.space| + |m.sign| + |m.digits|);
  }

  lemma NumberReads(m: Numeral, end: nat)
    ensures var r, v := NumberAt(m.digits, 10, Minus(m), end), Value(m.digits, 10);
            if m.digits == "" then r == Err(InvalidArgument)
            else if v >= 0x1_0000_0000_0000_0000 then r == Err(OutOfRange)
            else r == Ok((Meant(m), end))
  {
    if Value(m.digits, 10) < ULLONG_MODULUS {
      NegatedWraps(Value(m.digits, 10));
    }
  }

  /** Every text is of that form. */
  lemma EveryNumeral(text: string) returns (m: Numeral)
    ensures PlainNumeral(m) && PrintNumeral(m) == text
  {
    var i := SpaceEnd(text, 0);
    SpaceEndStops(text, 0);
    var sign, digits, tail := EverySigned(text[i..]);
    m := Numeral(text[..i], sign, digits, tail);
    assert text == text[..i] + text[i..];
  }

  lemma EverySigned(text: string) returns (sign: string, digits: string, tail: string)
    requires text != "" ==> !IsSpace(text[0])
    ensures text == sign + (digits + tail) && PlainNumeral(Numeral("", sign, digits, tail))
  {
    var j := if text != "" && text[0] in {'+', '-'} then 1 else 0;
    var e := DigitsEnd(text, 10, j);
    sign, digits, tail := text[..j], text[j..e], text[e..];
    assert forall k :: 0 <= k < |digits| ==> Digit(digits[k]) < 10;
    assert j == 1 ==> sign == [text[0]];
    assert text == text[..j] + (text[j..e] + text[e..]);
  }

  lemma {:induction false} SpaceEndStops(s: string, i: nat)
    requires i <= |s|
    ensures var e := SpaceEnd(s, i);
            (forall j :: i <= j < e ==> s[j] == ' ' || 9 <= s[j] as int <= 13) && (e < |s| ==> !IsSpace(s[e]))
    decreases |s| - i
  {
    if i < |s| && IsSpace(s[i]) {
      SpaceEndStops(s, i + 1);
    }
  }

  // ---------------------------------------------------------------- what the loop decides

  lemma {:induction false} LookupIsFirst(headers: seq<(string, string)>, fields: seq<FieldLine>, small: string)
    requires ReadAs(headers, fields)
    ensures Lookup(headers, small) == FirstValue(fields, small)
  {
    if fields != [] {
      assert InSmall(fields[0].name, headers[0].0) && headers[0].1 == fields[0].value;
      assert headers[0].0 == small <==> InSmall(fields[0].name, small);
      assert forall i :: 0 <= i < |fields| - 1 ==> headers[1..][i] == headers[i + 1] && fields[1..][i] == fields[i + 1];
      LookupIsFirst(headers[1..], fields[1..], small);
    }
  }

  lemma SliceInSmall(value: string, lower: string, small: string, i: nat)
    requires |lower| == |value| && forall j :: 0 <= j < |value| ==> lower[j] == SmallLetter(value[j])
    requires i + |small| <= |value|
    ensures Occurs(lower, small, i) <==> MentionedAt(value, small, i)
  {
    var slice := lower[i..i + |small|];
    if MentionedAt(value, small, i) {
      assert forall j :: 0 <= j < |small| ==> slice[j] == lower[i + j];
    } else {
      var j :| 0 <= j < |small| && small[j] != SmallLetter(value[i + j]);
      assert slice[j] == lower[i + j];
    }
  }

  lemma FoundIfMentioned(value: string, small: string)
    ensures Find(LowerAscii(value), small).Some? <==> Mentions(value, small)
  {
    forall i: nat | i + |small| <= |value| ensures Occurs(LowerAscii(value), small, i) <==> MentionedAt(value, small, i) {
      SliceInSmall(value, LowerAscii(value), small, i);
    }
  }

  /** Everything the loop decides when the block is there. */
  lemma PrintedStart(h: Heading, headRequest: bool, maximum: nat, m: Numeral)
    requires Plain(h) && "HTTP/" <= h.version && 100 <= h.status <= 999
    requires PlainNumeral(m) && PrintNumeral(m) == LengthText(h)
    ensures var r := ReadStart(Block(h), headRequest, maximum);
            if LengthText(h) == "" then Decided(r, h, headRequest, None)
            else if m.digits == "" then r == Err(BadLength(InvalidArgument))
            else if Value(m.digits, 10) >= 0x1_0000_0000_0000_0000 then r == Err(BadLength(OutOfRange))
            else if Meant(m) > maximum then r == Err(LengthLimit)
            else Decided(r, h, headRequest, Some(Meant(m)))
  {
    PrintedHead(h);
    var head := ParseHead(Block(h)).value;
    LookupIsFirst(head.headers, h.fields, "transfer-encoding");
    LookupIsFirst(head.headers, h.fields, "content-length");
    FoundIfMentioned(FirstValue(h.fields, "transfer-encoding"), "chunked");
    NumeralReads(m);
  }

  /** The head is read, and the framing is what its fields, its status and the request say. */
  predicate Decided(r: Result<Start, HttpError>, h: Heading, headRequest: bool, length: Option<nat>) {
    && r.Ok?
    && Says(r.value.head, h)
    && r.value.chunked == Chunking(h)
    && r.value.length == length
    && r.value.bodyless == (headRequest || h.status == 204 || h.status == 304)
  }

  // ---------------------------------------------------------------- whole responses

  /** Room for the header block when a receive brings at most n octets. */
  predicate BlockFits(h: Heading, n: nat) {
    |Block(h)| + 3 + n <= 1048576
  }

  predicate PiecesUpTo(pieces: seq<string>, n: nat) {
    forall i :: 0 <= i < |pieces| ==> |pieces[i]| <= n
  }

  /** A response to a request that is not HEAD, with a status that has a body, in a version of HTTP. */
  predicate HasBody(h: Heading) {
    Plain(h) && "HTTP/" <= h.version && 100 <= h.status <= 999 && h.status != 204 && h.status != 304
  }

  predicate Delivers(r: Result<Response, HttpError>, h: Heading, body: string) {
    r.Ok? && Says(r.value.head, h) && r.value.body == body
  }

  lemma BlockAndRest(block: string, rest: string)
    ensures (block + "\r\n\r\n" + rest)[..|block|] == block && (block + "\r\n\r\n" + rest)[|block| + 4..] == rest
  {
  }

  /** From the octets to what the reference says about them. */
  lemma BodyDecides(h: Heading, headRequest: bool, maximum: nat, rest: string, pieces: seq<string>, ending: Ending, n: nat)
    requires Plain(h) && ReadStart(Block(h), headRequest, maximum).Ok?
    requires Concat(pieces) == Block(h) + "\r\n\r\n" + rest && BlockFits(h, n) && PiecesUpTo(pieces, n)
    requires Chunking(h) ==> rest == ""
    requires ReadStart(Block(h), headRequest, maximum).value.chunked == Chunking(h)
    ensures var cfg, start := Configured(headRequest, maximum), ReadStart(Block(h), headRequest, maximum).value;
            SameOutcome(Outcome(cfg, pieces, ending), ReferenceBody(cfg, start, rest, ending))
  {
    var cfg, whole := Configured(headRequest, maximum), Block(h) + "\r\n\r\n" + rest;
    PrintedEnds(h, rest);
    BlockAndRest(Block(h), rest);
    if Chunking(h) {
      NothingHeld(cfg, n);
    }
    OutcomeIsReferenceExactly(headRequest, maximum, pieces, ending, n);
  }

  lemma NothingHeld(cfg: Config, n: nat)
    requires n <= MIB
    ensures HoldsLittle(cfg, "", n)
  {
    assert Step(Fresh(), cfg.size) == Wait;
  }

  /** A body of the announced length comes out whole, in any pieces, whatever is behind it. */
  lemma LengthResponse(h: Heading, maximum: nat, body: string, beyond: string, pieces: seq<string>, ending: Ending, n: nat)
    requires HasBody(h) && !Chunking(h) && LengthText(h) == Decimal(|body|) && |body| <= maximum < 0x1_0000_0000_0000_0000
    requires Concat(pieces) == Block(h) + "\r\n\r\n" + (body + beyond) && BlockFits(h, n) && PiecesUpTo(pieces, n)
    ensures Delivers(Outcome(Configured(false, maximum), pieces, ending), h, body)
  {
    AnnouncedLength(h, false, maximum, |body|);
    BodyDecides(h, false, maximum, body + beyond, pieces, ending, n);
    assert (body + beyond)[..|body|] == body;
  }

  /** A connection that ends before the announced length gives no response. */
  lemma ShortResponse(h: Heading, maximum: nat, length: nat, part: string, pieces: seq<string>, ending: Ending, n: nat)
    requires HasBody(h) && !Chunking(h) && LengthText(h) == Decimal(length) && length <= maximum < 0x1_0000_0000_0000_0000
    requires Concat(pieces) == Block(h) + "\r\n\r\n" + part && |part| < length && BlockFits(h, n) && PiecesUpTo(pieces, n)
    ensures Outcome(Configured(false, maximum), pieces, ending).Err?
  {
    AnnouncedLength(h, false, maximum, length);
    BodyDecides(h, false, maximum, part, pieces, ending, n);
  }

  lemma AnnouncedLength(h: Heading, headRequest: bool, maximum: nat, length: nat)
    requires Plain(h) && "HTTP/" <= h.version && 100 <= h.status <= 999
    requires LengthText(h) == Decimal(length) && length <= maximum < 0x1_0000_0000_0000_0000
    ensures Decided(ReadStart(Block(h), headRequest, maximum), h, headRequest, Some(length))
  {
    var m := DigitsOnly(length);
    PrintedStart(h, headRequest, maximum, m);
  }

  lemma DigitsOnly(n: nat) returns (m: Numeral)
    requires n < 0x1_0000_0000_0000_0000
    ensures PlainNumeral(m) && PrintNumeral(m) == Decimal(n) == m.digits && Value(m.digits, 10) == n == Meant(m)
  {
    m := Numeral("", "", Decimal(n), "");
    assert "" + ("" + (m.digits + "")) == m.digits;
  }

  lemma NoLength(h: Heading, headRequest: bool, maximum: nat)
    requires Plain(h) && "HTTP/" <= h.version && 100 <= h.status <= 999 && LengthText(h) == ""
    ensures Decided(ReadStart(Block(h), headRequest, maximum), h, headRequest, None)
  {
    PrintedStart(h, headRequest, maximum, Numeral("", "", "", ""));
  }

  /** Without a length the body is all there is up to the orderly end of the connection, within the limit. */
  lemma ResponseToTheEnd(h: Heading, maximum: nat, body: string, pieces: seq<string>, ending: Ending, n: nat)
    requires HasBody(h) && !Chunking(h) && LengthText(h) == ""
    requires Concat(pieces) == Block(h) + "\r\n\r\n" + body && BlockFits(h, n) && PiecesUpTo(pieces, n)
    ensures var r := Outcome(Configured(false, maximum), pieces, ending);
            if ending.Closed? && |body| <= maximum then Delivers(r, h, body) else r.Err?
  {
    NoLength(h, false, maximum);
    BodyDecides(h, false, maximum, body, pieces, ending, n);
  }

  /** The text is a number of 64 bits within the limit. */
  predicate LengthTaken(m: Numeral, maximum: nat) {
    m.digits != "" && Value(m.digits, 10) < 0x1_0000_0000_0000_0000 && Meant(m) <= maximum
  }

  /** Another version, a status of fewer or more than three digits, or a length that is none: no response. */
  lemma RefusedHeading(h: Heading, headRequest: bool, maximum: nat, m: Numeral, rest: string,
                       pieces: seq<string>, ending: Ending, n: nat)
    requires Plain(h) && PlainNumeral(m) && PrintNumeral(m) == LengthText(h)
    requires !("HTTP/" <= h.version && 100 <= h.status <= 999) || (LengthText(h) != "" && !LengthTaken(m, maximum))
    requires Concat(pieces) == Block(h) + "\r\n\r\n" + rest && BlockFits(h, n) && PiecesUpTo(pieces, n)
    ensures Outcome(Configured(headRequest, maximum), pieces, ending).Err?
  {
    PrintedHead(h);
    if "HTTP/" <= h.version && 100 <= h.status <= 999 {
      PrintedStart(h, headRequest, maximum, m);
    }
    PrintedEnds(h, rest);
    BlockAndRest(Block(h), rest);
    OutcomeIsReferenceExactly(headRequest, maximum, pieces, ending, n);
  }

  /** What answers HEAD, or has status 204 or 304, has no body, whatever its fields announce and whatever follows. */
  lemma BodylessResponse(h: Heading, headRequest: bool, maximum: nat, m: Numeral, beyond: string,
                         pieces: seq<string>, ending: Ending, n: nat)
    requires Plain(h) && "HTTP/" <= h.version && 100 <= h.status <= 999
    requires headRequest || h.status == 204 || h.status == 304
    requires PlainNumeral(m) && PrintNumeral(m) == LengthText(h)
    requires LengthText(h) == "" || LengthTaken(m, maximum)
    requires Concat(pieces) == Block(h) + "\r\n\r\n" + beyond && BlockFits(h, n) && PiecesUpTo(pieces, n)
    requires Chunking(h) ==> beyond == ""
    ensures var r := Outcome(Configured(headRequest, maximum), pieces, ending);
            if Chunking(h) then r.Err? else Delivers(r, h, "")
  {
    PrintedStart(h, headRequest, maximum, m);
    BodyDecides(h, headRequest, maximum, beyond, pieces, ending, n);
  }

  /** While no blank line has come the octets are kept, up to exactly 1 MiB of them. */
  lemma {:induction false} HeaderLimitExactly(cfg: Config, pieces: seq<string>)
    requires Find(Concat(pieces), "\r\n\r\n").None?
    ensures Turns(cfg, pieces) ==
            if |Concat(pieces)| > 1048576 then Err(HeaderLimit) else Ok(Begin().(pending := Concat(pieces)))
  {
    if pieces != [] {
      var early, last := pieces[..|pieces| - 1], pieces[|pieces| - 1];
      if Find(Concat(early), "\r\n\r\n").Some? {
        FindExtends(Concat(early), last, "\r\n\r\n");
      }
      HeaderLimitExactly(cfg, early);
    }
  }

  /** The end of the connection before the blank line gives no response. */
  lemma NoBlankLineNoResponse(cfg: Config, pieces: seq<string>, ending: Ending)
    requires Find(Concat(pieces), "\r\n\r\n").None?
    ensures Outcome(cfg, pieces, ending) ==
            Err(if |Concat(pieces)| > 1048576 then HeaderLimit else if ending.Broken? then SocketFailed else NoHeaders)
  {
    HeaderLimitExactly(cfg, pieces);
  }

  // ---------------------------------------------------------------- chunked bodies

  /** A chunk: its size in hexadecimal, with small or capital letters, and an extension. */
  datatype Part = Part(data: string, letter: char, extension: string)

  predicate PlainPart(p: Part) {
    p.data != "" && p.letter in {'a', 'A'} && OneLine(p.extension) && (p.extension != "" ==> p.extension[0] == ';')
  }

  function HexDigit(d: nat, letter: char): char
    requires d < 16 && letter in {'a', 'A'}
  {
    if d < 10 then ('0' as int + d) as char else (letter as int + d - 10) as char
  }

  function Hexadecimal(n: nat, letter: char): (s: string)
    requires letter in {'a', 'A'}
    ensures s != "" && AllDigits(s, 16) && Value(s, 16) == n && '\r' !in s
  {
    var last := HexDigit(n % 16, letter);
    if n < 16 then
      assert Value([last], 16) == Value([], 16) * 16 + Digit(last);
      [last]
    else
      var s := Hexadecimal(n / 16, letter) + [last];
      assert s[..|s| - 1] == Hexadecimal(n / 16, letter);
      s
  }

  function SizeLine(p: Part): string
    requires PlainPart(p)
  {
    Hexadecimal(|p.data|, p.letter) + p.extension
  }

  function PrintPart(p: Part): string
    requires PlainPart(p)
  {
    SizeLine(p) + "\r\n" + p.data + "\r\n"
  }

  predicate PlainParts(parts: seq<Part>) {
    forall i :: 0 <= i < |parts| ==> PlainPart(parts[i])
  }

  function PrintParts(parts: seq<Part>): string
    requires PlainParts(parts)
  {
    if parts == [] then "" else PrintPart(parts[0]) + PrintParts(parts[1..])
  }

  function AllData(parts: seq<Part>): string {
    if parts == [] then "" else parts[0].data + AllData(parts[1..])
  }

  function Encoded(parts: seq<Part>): (cs: seq<Chunk>)
    requires PlainParts(parts)
    ensures |cs| == |parts|
    ensures forall i :: 0 <= i < |cs| ==> cs[i] == Chunk(SizeLine(parts[i]), parts[i].data)
  {
    if parts == [] then [] else [Chunk(SizeLine(parts[0]), parts[0].data)] + Encoded(parts[1..])
  }

  lemma {:induction false} EncodedIsPrinted(parts: seq<Part>)
    requires PlainParts(parts)
    ensures Encode(Encoded(parts)) == PrintParts(parts)
    ensures Concat(Datas(Encoded(parts))) == AllData(parts)
  {
    if parts != [] {
      EncodedIsPrinted(parts[1..]);
      assert Encoded(parts)[1..] == Encoded(parts[1..]);
      var datas := Datas(Encoded(parts));
      assert datas[1..] == Datas(Encoded(parts[1..]));
      ConcatFromFront(datas);
    }
  }

  lemma LineReads(digits: string, extension: string, maximum: nat)
    requires digits != "" && AllDigits(digits, 16) && '\r' !in digits && Value(digits, 16) <= maximum < 0x1_0000_0000_0000_0000
    requires OneLine(extension) && (extension != "" ==> extension[0] == ';')
    ensures ValidLine(digits + extension, Value(digits, 16), Sizes(maximum))
  {
    NoLineEnd(digits + extension);
    PlainLine(digits, extension, maximum);
  }

  lemma PlainLine(digits: string, extension: string, maximum: nat)
    requires digits != "" && AllDigits(digits, 16) && Value(digits, 16) <= maximum < 0x1_0000_0000_0000_0000
    requires Trimmed(extension) && (extension != "" ==> extension[0] == ';')
    ensures ChunkSize(digits + extension, maximum) == Ok(Value(digits, 16))
  {
    PlainSizes("", digits, "", extension, maximum);
    NothingAround(digits, extension);
  }

  lemma NothingAround(s: string, t: string)
    ensures "" + s + "" + t == s + t
  {
  }

  lemma LastSizeReads(last: string, maximum: nat)
    requires last == "0" && maximum < 0x1_0000_0000_0000_0000
    ensures ValidLine(last, 0, Sizes(maximum))
  {
    assert last[..0] == "" && last[0] == '0' && Value(last, 16) == 0;
    LineReads(last, "", maximum);
    assert last + "" == last;
  }

  lemma {:induction false} PartWithinData(parts: seq<Part>, i: nat)
    requires i < |parts|
    ensures |parts[i].data| <= |AllData(parts)|
  {
    if i > 0 {
      PartWithinData(parts[1..], i - 1);
    }
  }

  lemma LastLineEnds(chunks: string, beyond: string)
    ensures chunks + "0\r\n" + beyond == chunks + ("0" + CRLF) + beyond
  {
    assert "0\r\n" == "0" + "\r\n";
  }

  lemma PartsRead(parts: seq<Part>, maximum: nat)
    requires PlainParts(parts) && |AllData(parts)| <= maximum < 0x1_0000_0000_0000_0000
    ensures ValidChunks(Encoded(parts), Sizes(maximum))
  {
    var cs := Encoded(parts);
    forall i | 0 <= i < |cs| ensures 0 < |cs[i].data| && ValidLine(cs[i].line, |cs[i].data|, Sizes(maximum)) {
      PartWithinData(parts, i);
      LineReads(Hexadecimal(|parts[i].data|, parts[i].letter), parts[i].extension, maximum);
    }
  }

  lemma ChunkedStart(h: Heading, maximum: nat, length: nat) returns (start: Start)
    requires HasBody(h) && Chunking(h) && length <= maximum < 0x1_0000_0000_0000_0000
    requires LengthText(h) == "" || LengthText(h) == Decimal(length)
    ensures Find(Block(h) + "\r\n\r\n", "\r\n\r\n") == Some(|Block(h)|)
    ensures ReadStart(Block(h), false, maximum) == Ok(start) && Says(start.head, h) && start.chunked && !start.bodyless
    ensures start.length.Some? ==> start.length.value == length
  {
    if LengthText(h) == "" {
      NoLength(h, false, maximum);
    } else {
      AnnouncedLength(h, false, maximum, length);
    }
    start := ReadStart(Block(h), false, maximum).value;
    PrintedEnds(h, "");
    assert Block(h) + "\r\n\r\n" + "" == Block(h) + "\r\n\r\n";
  }

  /** The chunks of a chunked body come out as one body, in any pieces, with trailers and anything else behind. */
  lemma PrintedChunkedResponse(h: Heading, maximum: nat, parts: seq<Part>, beyond: string, pieces: seq<string>,
                               ending: Ending, longest: nat, n: nat)
    requires HasBody(h) && Chunking(h) && PlainParts(parts) && |AllData(parts)| <= maximum < 0x1_0000_0000_0000_0000
    requires LengthText(h) == "" || LengthText(h) == Decimal(|AllData(parts)|)
    requires Concat(pieces) == Block(h) + "\r\n\r\n" + (PrintParts(parts) + "0\r\n" + beyond)
    requires BlockFits(h, n) && PiecesUpTo(pieces, n) && 1 <= longest && longest + 1 + n <= maximum + 1048576
    requires forall i :: 0 <= i < |parts| ==> |SizeLine(parts[i])| <= longest && |parts[i].data| <= longest
    ensures Delivers(Outcome(Configured(false, maximum), pieces, ending), h, AllData(parts))
  {
    var cs := Encoded(parts);
    EncodedIsPrinted(parts);
    PartsRead(parts, maximum);
    LastSizeReads("0", maximum);
    var start := ChunkedStart(h, maximum, |AllData(parts)|);
    LastLineEnds(PrintParts(parts), beyond);
    ChunkedResponse(false, maximum, Block(h), start, cs, "0", beyond, pieces, ending, longest, n);
  }

  // ---------------------------------------------------------------- a response to HEAD that is refused for its fields

  /** A server answers HEAD with the fields it would send to GET. */
  const CHUNKED_BLOCK := "HTTP/1.1" + (" " + "200" + (" " + "OK")) + ("\r\n" + "Transfer-Encoding" + ":" + " " + "chunked")

  function ChunkedHeading(): Heading {
    Heading("HTTP/1.1", 200, "OK", [FieldLine("Transfer-Encoding", " ", "chunked", "")])
  }

  lemma ChunkedHeadIsRefused(maximum: nat, ending: Ending)
    ensures var start := ReadStart(CHUNKED_BLOCK, true, maximum); start.Ok? && start.value.chunked && start.value.bodyless
    ensures Outcome(Configured(true, maximum), [CHUNKED_BLOCK + BLANK_LINE], ending) == Err(ChunkedIncomplete)
  {
    var h, cfg, piece := ChunkedHeading(), Configured(true, maximum), CHUNKED_BLOCK + BLANK_LINE;
    ChunkedHeadingIsBlock();
    ChunkedHeadingReads();
    NoLength(h, true, maximum);
    PrintedEnds(h, "");
    assert piece[..|CHUNKED_BLOCK|] == CHUNKED_BLOCK && "" + piece == piece == piece + "";
    assert cfg.start(CHUNKED_BLOCK) == ReadStart(CHUNKED_BLOCK, true, maximum);
    var l := Turn(cfg, Begin(), piece);
    assert l.Ok? && l.value.finished && l.value.decoder == Fresh();
    assert [piece][..0] == [] && Turns(cfg, []) == Ok(Begin()) && Turns(cfg, [piece]) == l;
  }

  lemma ChunkedHeadingIsBlock()
    ensures Block(ChunkedHeading()) == CHUNKED_BLOCK
  {
    assert Decimal(2) == "2" && Decimal(20) == "20" && Decimal(200) == "200";
  }

  lemma ChunkedHeadingReads()
    ensures Plain(ChunkedHeading()) && Chunking(ChunkedHeading()) && LengthText(ChunkedHeading()) == ""
  {
    var f := FieldLine("Transfer-Encoding", " ", "chunked", "");
    OneField(f);
    assert MentionedAt("chunked", "chunked", 0);
    PlainTransferEncoding(f);
    assert OneLine("OK");
  }

  lemma PlainTransferEncoding(f: FieldLine)
    requires f.name == "Transfer-Encoding" && f.left == " " && f.value == "chunked" && f.right == ""
    ensures PlainField(f)
  {
  }

  lemma OneField(f: FieldLine)
    requires f.name == "Transfer-Encoding"
    ensures FirstValue([f], "transfer-encoding") == f.value && FirstValue([f], "content-length") == ""
  {
    assert InSmall("Transfer-Encoding", "transfer-encoding") && |"Transfer-Encoding"| != |"content-length"|;
    assert [f][1..] == [];
  }
}
