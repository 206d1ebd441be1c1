/**
 The HTTP parameter lists of websocketpp/http/parser.hpp: comma separated tokens, each with a list of
 attributes. An iterator is the text from its place to the end.
 */
module HttpParams {
  import opened Wrappers

  /** The table header_token of websocketpp/http/constants.hpp. */
  predicate IsTokenChar(c: char) {
    && 0x21 <= c as int <= 0x7E
    && c !in {'(', ')', '<', '>', '@', ',', ';', ':', '\\', '"', '/', '[', ']', '?', '=', '{', '}'}
  }

  /** Its rows from 0x20 on; all others are zero. */
  function HeaderToken(high: nat): string {
    if high == 2 then "0101111100110110"
    else if high == 3 then "1111111111000000"
    else if high == 4 then "0111111111111111"
    else if high == 5 then "1111111111100011"
    else if high == 6 then "1111111111111111"
    else if high == 7 then "1111111111101010"
    else "0000000000000000"
  }

  /** The table says what a token is in section 2.2 of RFC 2616: any CHAR except CTLs and separators. */
  lemma TokenCharsExactly(c: char)
    requires c as int < 256
    ensures |HeaderToken(c as int / 16)| == 16
    ensures HeaderToken(c as int / 16)[c as int % 16] == '1' <==> IsTokenChar(c)
    ensures IsTokenChar(c) <==> 'a' <= c <= 'z' || 'A' <= c <= 'Z' || '0' <= c <= '9' || c in "!#$%&'*+-.^_`|~"
  {
    TableRow(c, c as int / 16, c as int % 16);
    TokenChars(c);
  }

  lemma TableRow(c: char, high: nat, low: nat)
    requires c as int == 16 * high + low && low < 16 && high < 16
    ensures |HeaderToken(high)| == 16 && (HeaderToken(high)[low] == '1' <==> IsTokenChar(c))
  {
  }

  lemma TokenChars(c: char)
    ensures IsTokenChar(c) <==> 'a' <= c <= 'z' || 'A' <= c <= 'Z' || '0' <= c <= '9' || c in "!#$%&'*+-.^_`|~"
  {
  }

  predicate IsWhitespaceChar(c: char) {
    c == '\t' || c == ' '
  }

  // ---------------------------------------------------------------- tokens and white space

  function TokenEnd(s: string): (n: nat)
    ensures n <= |s| && (forall i :: 0 <= i < n ==> IsTokenChar(s[i])) && (n < |s| ==> !IsTokenChar(s[n]))
  {
    if s == "" || !IsTokenChar(s[0]) then 0 else 1 + TokenEnd(s[1..])
  }

  /** extract_token: the token and what is behind it. */
  function ExtractToken(s: string): (r: (string, string))
    ensures r.0 + r.1 == s && (forall i :: 0 <= i < |r.0| ==> IsTokenChar(r.0[i])) && (r.1 != "" ==> !IsTokenChar(r.1[0]))
  {
    (s[..TokenEnd(s)], s[TokenEnd(s)..])
  }

  function SkipBlanks(s: string): (r: string)
    ensures |r| <= |s| && (r != "" ==> !IsWhitespaceChar(r[0]))
  {
    if s != "" && IsWhitespaceChar(s[0]) then SkipBlanks(s[1..]) else s
  }

  /** extract_lws: an optional folded line and blanks. */
  function ExtractLws(s: string): (r: string)
    ensures |r| <= |s|
  {
    SkipBlanks(if |s| > 2 && s[0] == '\r' && s[1] == '\n' && IsWhitespaceChar(s[2]) then s[3..] else s)
  }

  function AllLws(s: string): (r: string)
    ensures |r| <= |s|
    decreases |s|
  {
    var n := ExtractLws(s);
    if n == "" || n == s then n else AllLws(n)
  }

  /** A line break that is followed by a blank, which belongs to it. */
  predicate Folded(s: string) {
    |s| > 2 && s[0] == '\r' && s[1] == '\n' && IsWhitespaceChar(s[2])
  }

  predicate StartsLws(s: string) {
    Folded(s) || (s != "" && IsWhitespaceChar(s[0]))
  }

  /** Linear white space, section 2.2 of RFC 2616: blanks and folded lines. */
  predicate IsLws(s: string) {
    s == "" || (StartsLws(s) && IsLws(s[if Folded(s) then 3 else 1..]))
  }

  /** r is s without some linear white space in front. */
  ghost predicate LwsGone(s: string, r: string) {
    exists lws :: s == lws + r && IsLws(lws)
  }

  lemma LwsBehind(first: string, s: string, r: string)
    requires LwsGone(s, r) && ((Folded(first) && |first| == 3) || (|first| == 1 && IsWhitespaceChar(first[0])))
    ensures LwsGone(first + s, r)
  {
    var lws :| s == lws + r && IsLws(lws);
    var all := first + lws;
    assert all[|first|..] == lws && all[..|first|] == first;
    assert IsLws(all);
    assert first + s == all + r;
  }

  lemma {:induction false} LwsAppend(a: string, b: string)
    requires IsLws(a) && IsLws(b)
    ensures IsLws(a + b)
    decreases |a|
  {
    if a == "" {
      assert a + b == b;
    } else {
      var n := if Folded(a) then 3 else 1;
      LwsAppend(a[n..], b);
      assert (a + b)[n..] == a[n..] + b;
    }
  }

  lemma {:induction false} BlanksAreLws(s: string)
    ensures LwsGone(s, SkipBlanks(s))
  {
    if s != "" && IsWhitespaceChar(s[0]) {
      BlanksAreLws(s[1..]);
      LwsBehind(s[..1], s[1..], SkipBlanks(s[1..]));
      assert s[..1] + s[1..] == s;
    } else {
      assert s == "" + s && IsLws("");
    }
  }

  /** extract_lws skips linear white space and nothing else; it stays put just where there is none. */
  lemma LwsSkipped(s: string)
    ensures LwsGone(s, ExtractLws(s)) && (ExtractLws(s) == s <==> !StartsLws(s))
  {
    if Folded(s) {
      BlanksAreLws(s[3..]);
      LwsBehind(s[..3], s[3..], ExtractLws(s));
      assert s[..3] + s[3..] == s;
    } else {
      BlanksAreLws(s);
    }
  }

  /** extract_all_lws skips all the linear white space there is in front, and nothing else. */
  lemma {:induction false} AllLwsSkipped(s: string)
    ensures LwsGone(s, AllLws(s)) && !StartsLws(AllLws(s))
    decreases |s|
  {
    LwsSkipped(s);
    var n := ExtractLws(s);
    if n != "" && n != s {
      AllLwsSkipped(n);
      LwsGoneTwice(s, n, AllLws(n));
    }
  }

  lemma LwsGoneTwice(s: string, t: string, r: string)
    requires LwsGone(s, t) && LwsGone(t, r)
    ensures LwsGone(s, r)
  {
    var a :| s == a + t && IsLws(a);
    var b :| t == b + r && IsLws(b);
    LwsAppend(a, b);
    assert s == (a + b) + r;
  }

  method ExtractAllLws(s: string) returns (r: string)
    ensures r == AllLws(s)
    ensures LwsGone(s, r) && !StartsLws(r)
  {
    AllLwsSkipped(s);
    var before := s;
    r := ExtractLws(before);
    while r != "" && before != r
      invariant r == ExtractLws(before)
      invariant AllLws(s) == if r == "" || before == r then r else AllLws(r)
      decreases |before|
    {
      before := r;
      r := ExtractLws(before);
    }
  }

  // ---------------------------------------------------------------- quoted strings

  /** What is behind the opening quote, with what has been read so far. A quote behind a backslash is part of
      the value and takes the place of that backslash. */
  function Quoted(s: string, read: string): Option<(string, string)> {
    if s == "" then None
    else if s[0] != '"' then Quoted(s[1..], read + [s[0]])
    else if read != "" && read[|read| - 1] == '\\' then Quoted(s[1..], read[..|read| - 1] + "\"")
    else Some((read, s[1..]))
  }

  /** None when the iterator does not move. */
  function QuotedString(s: string): Option<(string, string)> {
    if s == "" || s[0] != '"' then None else Quoted(s[1..], "")
  }

  function QuoteAt(s: string, i: nat): (q: nat)
    requires i <= |s|
    ensures i <= q <= |s| && (forall j :: i <= j < q ==> s[j] != '"') && (q < |s| ==> s[q] == '"')
    decreases |s| - i
  {
    if i == |s| || s[i] == '"' then i else QuoteAt(s, i + 1)
  }

  /** Up to the next quote everything is read as it stands. */
  lemma {:induction false} QuotedSkips(s: string, marker: nat, cursor: nat, value: string)
    requires marker <= cursor <= |s| && forall j :: marker <= j < cursor ==> s[j] != '"'
    ensures Quoted(s[marker..], value) == Quoted(s[cursor..], value + s[marker..cursor])
    decreases cursor - marker
  {
    if marker == cursor {
      assert value + s[marker..cursor] == value;
    } else {
      assert s[marker..][1..] == s[marker + 1..];
      QuotedSkips(s, marker + 1, cursor, value + [s[marker]]);
      assert value + [s[marker]] + s[marker + 1..cursor] == value + s[marker..cursor];
    }
  }

  lemma LastDropped(a: string, b: string)
    requires b != ""
    ensures (a + b)[..|a + b| - 1] == a + b[..|b| - 1] && (a + b)[|a + b| - 1] == b[|b| - 1]
  {
  }

  /** The next quote either is part of the value or ends it. */
  lemma QuoteStep(s: string, marker: nat, cursor: nat, value: string)
    requires 1 <= marker <= cursor < |s| && s[cursor] == '"' && forall j :: marker <= j < cursor ==> s[j] != '"'
    requires s[marker - 1] == '"' && (value == "" || value[|value| - 1] == '"')
    ensures Quoted(s[marker..], value) ==
            if s[cursor - 1] == '\\' then Quoted(s[cursor + 1..], value + s[marker..cursor - 1] + "\"")
            else Some((value + s[marker..cursor], s[cursor + 1..]))
  {
    QuotedSkips(s, marker, cursor, value);
    var read := value + s[marker..cursor];
    assert s[cursor..][1..] == s[cursor + 1..];
    if marker < cursor {
      LastDropped(value, s[marker..cursor]);
      assert s[marker..cursor][..cursor - marker - 1] == s[marker..cursor - 1];
    } else {
      assert read == value;
    }
  }

  method ExtractQuotedString(s: string) returns (r: Option<(string, string)>)
    ensures r == QuotedString(s)
  {
    if s == "" || s[0] != '"' {
      return None;
    }
    var value := "";
    var marker := 1;
    var cursor := QuoteAt(s, 1);
    while cursor < |s|
      invariant 1 <= marker <= cursor <= |s| && cursor == QuoteAt(s, marker)
      invariant QuotedString(s) == Quoted(s[marker..], value)
      invariant s[marker - 1] == '"' && (value == "" || value[|value| - 1] == '"')
      decreases |s| - cursor
    {
      QuoteStep(s, marker, cursor, value);
      if s[cursor - 1] == '\\' {
        value := value + s[marker..cursor - 1] + "\"";
        marker := cursor + 1;
      } else {
        return Some((value + s[marker..cursor], s[cursor + 1..]));
      }
      cursor := QuoteAt(s, marker);
    }
    QuotedSkips(s, marker, cursor, value);
    return None;
  }

  // ---------------------------------------------------------------- attribute and parameter lists

  type Attributes = map<string, string>

  /** One name, with its value if it has one; the rest and the attributes with it. */
  function OneAttribute(s: string, attributes: Attributes): (r: Option<(string, Attributes)>)
    ensures r.Some? ==> |r.value.0| < |s|
  {
    var (name, behind) := ExtractToken(AllLws(s));
    if name == "" then None
    else
      assert |AllLws(s)| == |name| + |behind|;
      var next := AllLws(behind);
      if next == "" || next[0] != '=' then Some((next, attributes[name := ""])) else AttributeValue(name, next[1..], attributes)
  }

  function AttributeValue(name: string, s: string, attributes: Attributes): (r: Option<(string, Attributes)>)
    ensures r.Some? ==> |r.value.0| <= |s|
  {
    var text := AllLws(s);
    if text == "" then None
    else
      var quoted := QuotedString(text);
      if quoted.Some? then
        QuotedShrinks(text[1..], "");
        Some((quoted.value.1, attributes[name := quoted.value.0]))
      else
        var (token, behind) := ExtractToken(text);
        assert |text| == |token| + |behind|;
        if token == "" then None else Some((behind, attributes[name := token]))
  }

  lemma {:induction false} QuotedShrinks(s: string, read: string)
    ensures Quoted(s, read).Some? ==> |Quoted(s, read).value.1| < |s|
    decreases |s|
  {
    if s != "" && s[0] != '"' {
      QuotedShrinks(s[1..], read + [s[0]]);
    } else if s != "" && read != "" && read[|read| - 1] == '\\' {
      QuotedShrinks(s[1..], read[..|read| - 1] + "\"");
    }
  }

  /** The loop of extract_attributes; None is the syntax error. */
  function AttributesFrom(s: string, first: bool, attributes: Attributes): Option<(string, Attributes)>
    decreases |s|
  {
    var next := AllLws(s);
    if next == "" then Some(("", attributes))
    else if !first && next[0] != ';' then Some((next, attributes))
    else
      var one := OneAttribute(if first then next else next[1..], attributes);
      if one.None? then None else AttributesFrom(one.value.0, false, one.value.1)
  }

  /** None when the iterator does not move, which the caller takes for an error. */
  method ExtractAttributes(s: string) returns (r: Option<(string, Attributes)>)
    ensures r == if s == "" then None else AttributesFrom(s, true, map[])
  {
    if s == "" {
      return None;
    }
    var cursor, first, attributes: Attributes := s, true, map[];
    while cursor != ""
      invariant AttributesFrom(s, true, map[]) == AttributesFrom(cursor, first, attributes)
      decreases |cursor|
    {
      cursor := ExtractAllLws(cursor);
      if cursor == "" {
        break;
      }
      if !first && cursor[0] != ';' {
        return Some((cursor, attributes));
      }
      var one := OneAttribute(if first then cursor else cursor[1..], attributes);
      if one.None? {
        return None;
      }
      cursor, first, attributes := one.value.0, false, one.value.1;
    }
    return Some((cursor, attributes));
  }

  datatype Parameter = Parameter(name: string, attributes: Attributes)

  /** What follows a parameter's name: an attribute list if there is a semicolon. */
  function AfterName(s: string): (r: Option<(string, Attributes)>)
    requires s != ""
    ensures r.Some? ==> |r.value.0| <= |s|
  {
    if s[0] != ';' then Some((s, map[]))
    else if s[1..] == "" then None
    else
      AttributesShrink(s[1..], true, map[]);
      AttributesFrom(s[1..], true, map[])
  }

  lemma {:induction false} AttributesShrink(s: string, first: bool, attributes: Attributes)
    ensures var r := AttributesFrom(s, first, attributes); r.Some? ==> |r.value.0| <= |s|
    decreases |s|
  {
    var next := AllLws(s);
    if next != "" && (first || next[0] == ';') {
      var one := OneAttribute(if first then next else next[1..], attributes);
      if one.Some? {
        AttributesShrink(one.value.0, false, one.value.1);
      }
    }
  }

  /** The loop of extract_parameters: the place it ends, None for the syntax error, and all the parameters. */
  function ParametersFrom(s: string, read: seq<Parameter>): (Option<string>, seq<Parameter>)
    decreases |s|
  {
    var text := AllLws(s);
    if text == "" then (Some(""), read)
    else
      var (name, behind) := ExtractToken(text);
      assert |text| == |name| + |behind|;
      var next := AllLws(behind);
      if name == "" then (None, read)
      else if next == "" then (Some(""), read + [Parameter(name, map[])])
      else
        var attributes := AfterName(next);
        if attributes.None? then (None, read)
        else
          var done := read + [Parameter(name, attributes.value.1)];
          var last := AllLws(attributes.value.0);
          if last == "" || last[0] != ',' then (Some(last), done)
          else if last[1..] == "" then (None, done)
          else ParametersFrom(last[1..], done)
  }

  method ExtractParameters(s: string) returns (end: Option<string>, parameters: seq<Parameter>)
    ensures (end, parameters) == if s == "" then (None, []) else ParametersFrom(s, [])
  {
    parameters := [];
    if s == "" {
      return None, parameters;
    }
    var cursor := s;
    while cursor != ""
      invariant ParametersFrom(s, []) == ParametersFrom(cursor, parameters)
      decreases |cursor|
    {
      cursor := ExtractAllLws(cursor);
      if cursor == "" {
        break;
      }
      var (name, behind) := ExtractToken(cursor);
      assert |cursor| == |name| + |behind|;
      if name == "" {
        return None, parameters;
      }
      cursor := ExtractAllLws(behind);
      if cursor == "" {
        parameters := parameters + [Parameter(name, map[])];
        break;
      }
      var attributes: Attributes := map[];
      if cursor[0] == ';' {
        AttributesShrink(cursor[1..], true, map[]);
        var list := ExtractAttributes(cursor[1..]);
        if list.None? {
          return None, parameters;
        }
        cursor, attributes := list.value.0, list.value.1;
      }
      parameters := parameters + [Parameter(name, attributes)];
      cursor := ExtractAllLws(cursor);
      if cursor == "" || cursor[0] != ',' {
        return Some(cursor), parameters;
      }
      cursor := cursor[1..];
      if cursor == "" {
        return None, parameters;
      }
    }
    return Some(cursor), parameters;
  }

  // ---------------------------------------------------------------- parsing inverts printing

  predicate IsToken(s: string) {
    s != "" && forall i :: 0 <= i < |s| ==> IsTokenChar(s[i])
  }

  predicate Blank(s: string) {
    forall i :: 0 <= i < |s| ==> IsWhitespaceChar(s[i])
  }

  /** An attribute as it is written: without a value, with a token, or with a quoted string. */
  datatype Written = Bare | Plain(token: string) | InQuotes(value: string)

  datatype Attribute = Attribute(name: string, written: Written)

  datatype Item = Item(name: string, attributes: seq<Attribute>)

  function ValueOf(w: Written): string {
    match w
    case Bare => ""
    case Plain(token) => token
    case InQuotes(value) => value
  }

  /** The map an attribute list stands for; the last of several attributes with one name counts. */
  function MapOf(attributes: seq<Attribute>, start: Attributes): Attributes {
    if attributes == [] then start else MapOf(attributes[1..], start[attributes[0].name := ValueOf(attributes[0].written)])
  }

  function Meant(items: seq<Item>): seq<Parameter> {
    if items == [] then [] else [Parameter(items[0].name, MapOf(items[0].attributes, map[]))] + Meant(items[1..])
  }

  predicate ValidAttribute(a: Attribute) {
    IsToken(a.name) && match a.written case Bare => true case Plain(token) => IsToken(token) case InQuotes(value) => Quotable(value)
  }

  /** A quoted string's value; it may hold quotes and backslashes, but not end in a backslash. */
  predicate Quotable(value: string) {
    value != "" ==> value[|value| - 1] != '\\'
  }

  predicate ValidItem(item: Item) {
    IsToken(item.name) && forall i :: 0 <= i < |item.attributes| ==> ValidAttribute(item.attributes[i])
  }

  predicate ValidItems(items: seq<Item>) {
    forall i :: 0 <= i < |items| ==> ValidItem(items[i])
  }

  /** Each quote of the value behind a backslash. */
  function Escape(value: string): string {
    if value == "" then "" else (if value[0] == '"' then "\\\"" else [value[0]]) + Escape(value[1..])
  }

  function PrintValue(w: Written, pad: string): string {
    match w
    case Bare => ""
    case Plain(token) => pad + (token + pad)
    case InQuotes(value) => pad + ("\"" + (Escape(value) + ("\"" + pad)))
  }

  function PrintWritten(w: Written, pad: string): string {
    if w == Bare then "" else "=" + PrintValue(w, pad)
  }

  function PrintAttribute(a: Attribute, pad: string): string {
    pad + (a.name + (pad + PrintWritten(a.written, pad)))
  }

  /** Each attribute behind a semicolon. */
  function PrintAttributes(attributes: seq<Attribute>, pad: string): string {
    if attributes == [] then "" else ";" + (PrintAttribute(attributes[0], pad) + PrintAttributes(attributes[1..], pad))
  }

  /** The items with commas between them, and the blanks `pad` at every place that allows them. */
  function Print(items: seq<Item>, pad: string): string
    requires items != []
  {
    var head := pad + (items[0].name + (pad + PrintAttributes(items[0].attributes, pad)));
    if |items| == 1 then head else head + ("," + Print(items[1..], pad))
  }

  lemma Regroup2<T>(a: seq<T>, b: seq<T>, s: seq<T>)
    ensures a + b + s == a + (b + s)
  {
  }

  lemma Regroup3<T>(a: seq<T>, b: seq<T>, c: seq<T>, s: seq<T>)
    ensures a + (b + c) + s == a + (b + (c + s))
  {
  }

  lemma Regroup4<T>(a: seq<T>, b: seq<T>, c: seq<T>, d: seq<T>, s: seq<T>)
    ensures a + (b + (c + d)) + s == a + (b + (c + (d + s)))
  {
  }

  lemma Regroup5<T>(a: seq<T>, b: seq<T>, c: seq<T>, d: seq<T>, e: seq<T>, s: seq<T>)
    ensures a + (b + (c + (d + e))) + s == a + (b + (c + (d + (e + s))))
  {
  }

  lemma Behind<T>(x: seq<T>, s: seq<T>)
    requires |x| == 1
    ensures (x + s)[0] == x[0] && (x + s)[1..] == s
  {
  }

  /** Text that is not white space and does not continue a token. */
  predicate Ends(s: string) {
    s != "" ==> !IsTokenChar(s[0]) && !IsWhitespaceChar(s[0]) && s[0] != '\r'
  }

  lemma {:induction false} BlanksSkipped(pad: string, s: string)
    requires Blank(pad) && (s != "" ==> !IsWhitespaceChar(s[0]))
    ensures SkipBlanks(pad + s) == s
  {
    if pad == "" {
      assert pad + s == s;
    } else {
      assert (pad + s)[1..] == pad[1..] + s;
      BlanksSkipped(pad[1..], s);
    }
  }

  /** Blanks are skipped, and nothing of what is behind them. */
  lemma PadSkipped(pad: string, s: string)
    requires Blank(pad) && (s != "" ==> !IsWhitespaceChar(s[0]) && s[0] != '\r')
    ensures AllLws(pad + s) == s
  {
    BlanksSkipped(pad, s);
    BlanksSkipped("", s);
    assert "" + s == s;
    assert pad == "" ==> pad + s == s;
    assert ExtractLws(pad + s) == s;
    assert ExtractLws(s) == s;
  }

  lemma {:induction false} TokenEnds(token: string, s: string)
    requires (forall i :: 0 <= i < |token| ==> IsTokenChar(token[i])) && (s != "" ==> !IsTokenChar(s[0]))
    ensures ExtractToken(token + s) == (token, s)
  {
    assert TokenEnd(token + s) == |token|;
    assert (token + s)[..|token|] == token && (token + s)[|token|..] == s;
  }

  /** An escaped value is read as the value. */
  lemma {:induction false} EscapedReads(value: string, s: string, read: string)
    ensures Quoted(Escape(value) + s, read) == Quoted(s, read + value)
    decreases |value|
  {
    var text := Escape(value) + s;
    if value == "" {
      assert text == s && read + value == read;
    } else {
      var rest := Escape(value[1..]) + s;
      EscapedReads(value[1..], s, read + [value[0]]);
      assert read + [value[0]] + value[1..] == read + value;
      if value[0] == '"' {
        assert text[0] == '\\' && text[1..][0] == '"' && text[1..][1..] == rest;
        assert (read + ['\\'])[..|read|] == read;
      } else {
        assert text[0] == value[0] && text[1..] == rest;
      }
    }
  }

  /** A value comes back from its quoted string exactly if it does not end in a backslash. */
  lemma QuotedExactly(value: string)
    ensures (forall s: string :: QuotedString("\"" + (Escape(value) + ("\"" + s))) == Some((value, s))) <==> Quotable(value)
  {
    forall s: string ensures QuotedString("\"" + (Escape(value) + ("\"" + s))) ==
        if Quotable(value) then Some((value, s)) else Quoted(s, value[..|value| - 1] + "\"")
    {
      var text := Escape(value) + ("\"" + s);
      assert ("\"" + text)[1..] == text;
      EscapedReads(value, "\"" + s, "");
      assert "" + value == value;
      assert ("\"" + s)[1..] == s;
    }
    if !Quotable(value) {
      assert QuotedString("\"" + (Escape(value) + ("\"" + ""))) == None;
    }
  }

  /** A backslash that was itself escaped does not keep the quote behind it from being read as escaped. */
  lemma EscapedBackslash(s: string)
    ensures QuotedString("\"\\\\\"" + s) == Quoted(s, "\\\"")
  {
    var text := "\\\\\"" + s;
    assert ("\"\\\\\"" + s)[1..] == text;
    assert text[1..] == "\\\"" + s && text[1..][1..] == "\"" + s && text[1..][1..][1..] == s;
    assert Quoted(text, "") == Quoted(text[1..], "" + ['\\']);
    assert Quoted(text[1..], "" + ['\\']) == Quoted(text[1..][1..], ("" + ['\\']) + ['\\']);
    assert ("" + ['\\'] + ['\\'])[..1] + "\"" == "\\\"";
  }

  lemma PlainReads(name: string, token: string, pad: string, s: string, attributes: Attributes)
    requires IsToken(token) && Blank(pad) && Ends(s)
    ensures AttributeValue(name, pad + (token + (pad + s)), attributes) == Some((pad + s, attributes[name := token]))
  {
    var text := token + (pad + s);
    assert IsTokenChar(token[0]) && text[0] == token[0];
    PadSkipped(pad, text);
    PadEndsToken(pad, s);
    TokenEnds(token, pad + s);
  }

  lemma InQuotesReads(name: string, value: string, pad: string, s: string, attributes: Attributes)
    requires Quotable(value) && Blank(pad)
    ensures AttributeValue(name, pad + ("\"" + (Escape(value) + ("\"" + (pad + s)))), attributes) == Some((pad + s, attributes[name := value]))
  {
    var quoted := "\"" + (Escape(value) + ("\"" + (pad + s)));
    PadSkipped(pad, quoted);
    QuotedExactly(value);
  }

  lemma ValueReads(name: string, w: Written, pad: string, s: string, attributes: Attributes)
    requires w != Bare && ValidAttribute(Attribute(name, w)) && Blank(pad) && Ends(s)
    ensures AttributeValue(name, PrintValue(w, pad) + s, attributes) == Some((pad + s, attributes[name := ValueOf(w)]))
  {
    match w
    case Plain(token) =>
      Regroup3(pad, token, pad, s);
      PlainReads(name, token, pad, s, attributes);
    case InQuotes(value) =>
      Regroup5(pad, "\"", Escape(value), "\"", pad, s);
      InQuotesReads(name, value, pad, s, attributes);
  }

  lemma PadEndsToken(pad: string, s: string)
    requires Blank(pad) && Ends(s)
    ensures pad + s != "" ==> !IsTokenChar((pad + s)[0])
  {
    assert pad == "" ==> pad + s == s;
    assert pad != "" ==> (pad + s)[0] == pad[0] && IsWhitespaceChar(pad[0]);
  }

  /** A name with blanks around it is read, and so are the blanks. */
  lemma NameReads(pad: string, name: string, s: string)
    requires IsToken(name) && Blank(pad) && Ends(s)
    ensures AllLws(pad + (name + (pad + s))) == name + (pad + s)
    ensures ExtractToken(name + (pad + s)) == (name, pad + s)
    ensures AllLws(pad + s) == s
  {
    assert IsTokenChar(name[0]) && (name + (pad + s))[0] == name[0];
    PadSkipped(pad, name + (pad + s));
    PadEndsToken(pad, s);
    TokenEnds(name, pad + s);
    PadSkipped(pad, s);
  }

  lemma BareReads(name: string, pad: string, s: string, attributes: Attributes)
    requires IsToken(name) && Blank(pad) && Ends(s) && (s != "" ==> s[0] != '=')
    ensures OneAttribute(pad + (name + (pad + s)), attributes) == Some((s, attributes[name := ""]))
  {
    NameReads(pad, name, s);
  }

  lemma ValuedReads(name: string, pad: string, text: string, attributes: Attributes)
    requires IsToken(name) && Blank(pad)
    ensures OneAttribute(pad + (name + (pad + ("=" + text))), attributes) == AttributeValue(name, text, attributes)
  {
    Behind("=", text);
    NameReads(pad, name, "=" + text);
  }

  /** The blanks in front of one printed attribute may have been skipped already. */
  lemma AttributeReads(a: Attribute, pad: string, s: string, attributes: Attributes)
    requires ValidAttribute(a) && Blank(pad) && Ends(s) && (s != "" ==> s[0] != '=')
    ensures var r := OneAttribute(pad + (a.name + (pad + (PrintWritten(a.written, pad) + s))), attributes);
            r.Some? && r.value.1 == attributes[a.name := ValueOf(a.written)] && AllLws(r.value.0) == s
  {
    if a.written == Bare {
      assert "" + s == s;
      BareReads(a.name, pad, s, attributes);
      PadSkipped("", s);
    } else {
      var value := PrintValue(a.written, pad);
      Regroup2("=", value, s);
      WithValueReads(a, pad, value, s, attributes);
    }
  }

  lemma WithValueReads(a: Attribute, pad: string, value: string, s: string, attributes: Attributes)
    requires ValidAttribute(a) && a.written != Bare && Blank(pad) && Ends(s) && value == PrintValue(a.written, pad)
    ensures var r := OneAttribute(pad + (a.name + (pad + ("=" + (value + s)))), attributes);
            r.Some? && r.value.1 == attributes[a.name := ValueOf(a.written)] && AllLws(r.value.0) == s
  {
    ValuedReads(a.name, pad, value + s, attributes);
    ValueReads(a.name, a.written, pad, s, attributes);
    PadSkipped(pad, s);
  }

  /** What ends an attribute list: the end, a comma, or something that continues nothing. */
  predicate Stops(s: string) {
    s != "" ==> !IsTokenChar(s[0]) && !IsWhitespaceChar(s[0]) && s[0] !in {'\r', ';', '='}
  }

  /** A semicolon and an attribute in the loop of extract_attributes. */
  lemma LoopStep(before: string, one: string, map0: Attributes)
    requires AllLws(before) == ";" + one && OneAttribute(one, map0).Some?
    ensures var r := OneAttribute(one, map0).value; AttributesFrom(before, false, map0) == AttributesFrom(r.0, false, r.1)
  {
    Behind(";", one);
  }

  lemma PrintedFirst(attributes: seq<Attribute>, pad: string, s: string)
    requires attributes != []
    ensures var a := attributes[0];
            PrintAttributes(attributes, pad) + s ==
            ";" + (pad + (a.name + (pad + (PrintWritten(a.written, pad) + (PrintAttributes(attributes[1..], pad) + s)))))
  {
    var a, others := attributes[0], PrintAttributes(attributes[1..], pad);
    Regroup3(";", PrintAttribute(a, pad), others, s);
    Regroup4(pad, a.name, pad, PrintWritten(a.written, pad), others + s);
  }

  /** What is behind an attribute: another one, or what is behind them all. */
  lemma OthersEnd(attributes: seq<Attribute>, pad: string, s: string)
    requires Stops(s)
    ensures var t := PrintAttributes(attributes, pad) + s; Ends(t) && (t != "" ==> t[0] != '=')
  {
    if attributes == [] {
      assert PrintAttributes(attributes, pad) + s == s;
    }
  }

  lemma {:induction false} AttributesRead(attributes: seq<Attribute>, pad: string, before: string, s: string, map0: Attributes)
    requires (forall i :: 0 <= i < |attributes| ==> ValidAttribute(attributes[i])) && Blank(pad) && Stops(s)
    requires AllLws(before) == PrintAttributes(attributes, pad) + s
    ensures AttributesFrom(before, false, map0) == Some((s, MapOf(attributes, map0)))
    decreases |attributes|
  {
    if attributes == [] {
      assert PrintAttributes(attributes, pad) + s == s;
    } else {
      var a := attributes[0];
      var others := PrintAttributes(attributes[1..], pad) + s;
      var one := pad + (a.name + (pad + (PrintWritten(a.written, pad) + others)));
      PrintedFirst(attributes, pad, s);
      OthersEnd(attributes[1..], pad, s);
      AttributeReads(a, pad, others, map0);
      var r := OneAttribute(one, map0).value;
      LoopStep(before, one, map0);
      AttributesRead(attributes[1..], pad, r.0, s, r.1);
    }
  }

  lemma FirstStep(before: string, named: string, map0: Attributes)
    requires AllLws(before) == named && named != "" && OneAttribute(named, map0).Some?
    ensures var r := OneAttribute(named, map0).value; AttributesFrom(before, true, map0) == AttributesFrom(r.0, false, r.1)
  {
  }

  /** extract_attributes is called behind the semicolon, and skips the blanks in front of the first name. */
  lemma AttributeListReads(attributes: seq<Attribute>, pad: string, s: string)
    requires attributes != [] && (forall i :: 0 <= i < |attributes| ==> ValidAttribute(attributes[i])) && Blank(pad) && Stops(s)
    ensures AfterName(PrintAttributes(attributes, pad) + s) == Some((s, MapOf(attributes, map[])))
  {
    var a := attributes[0];
    var others := PrintAttributes(attributes[1..], pad) + s;
    var named := a.name + (pad + (PrintWritten(a.written, pad) + others));
    PrintedFirst(attributes, pad, s);
    AfterSemicolon(pad + named);
    OthersEnd(attributes[1..], pad, s);
    NameFirst(a.name, pad + (PrintWritten(a.written, pad) + others));
    PadSkipped(pad, named);
    SkippedReads(a, pad, others, map[]);
    FirstStep(pad + named, named, map[]);
    var r := OneAttribute(named, map[]).value;
    AttributesRead(attributes[1..], pad, r.0, s, r.1);
  }

  lemma AfterSemicolon(s: string)
    requires s != ""
    ensures AfterName(";" + s) == AttributesFrom(s, true, map[])
  {
    Behind(";", s);
  }

  lemma NameFirst(name: string, s: string)
    requires IsToken(name)
    ensures name + s != "" && (name + s)[0] == name[0] && IsTokenChar(name[0])
  {
  }

  /** The same when the blanks in front of the name have been skipped already. */
  lemma SkippedReads(a: Attribute, pad: string, s: string, attributes: Attributes)
    requires ValidAttribute(a) && Blank(pad) && Ends(s) && (s != "" ==> s[0] != '=')
    ensures var r := OneAttribute(a.name + (pad + (PrintWritten(a.written, pad) + s)), attributes);
            r.Some? && r.value.1 == attributes[a.name := ValueOf(a.written)] && AllLws(r.value.0) == s
  {
    var named := a.name + (pad + (PrintWritten(a.written, pad) + s));
    AttributeReads(a, pad, s, attributes);
    NameFirst(a.name, pad + (PrintWritten(a.written, pad) + s));
    PadSkipped(pad, named);
    PadSkipped("", named);
    assert "" + named == named;
    SameAttribute(pad + named, named, attributes);
  }

  lemma SameAttribute(s: string, t: string, attributes: Attributes)
    requires AllLws(s) == AllLws(t)
    ensures OneAttribute(s, attributes) == OneAttribute(t, attributes)
  {
  }

  /** Reading a parameter's name and its attributes takes the loop of extract_parameters to the comma. */
  lemma ItemReads(item: Item, pad: string, rest: string, read: seq<Parameter>)
    requires ValidItem(item) && Blank(pad) && rest != ""
    ensures ParametersFrom(pad + (item.name + (pad + (PrintAttributes(item.attributes, pad) + ("," + rest)))), read) ==
            ParametersFrom(rest, read + [Parameter(item.name, MapOf(item.attributes, map[]))])
  {
    var s := "," + rest;
    var list := PrintAttributes(item.attributes, pad) + s;
    OthersEnd(item.attributes, pad, s);
    NameReads(pad, item.name, list);
    AfterNameReads(item.attributes, pad, s);
    PadSkipped("", s);
    assert "" + s == s;
    ParametersStep(pad + (item.name + (pad + list)), item.name, pad + list, list, rest, MapOf(item.attributes, map[]), read);
  }

  lemma ParametersStep(before: string, name: string, behind: string, list: string, rest: string, attributes: Attributes, read: seq<Parameter>)
    requires name != "" && AllLws(before) == name + behind && ExtractToken(name + behind) == (name, behind)
    requires AllLws(behind) == list && list != "" && AfterName(list) == Some(("," + rest, attributes))
    requires AllLws("," + rest) == "," + rest && rest != ""
    ensures ParametersFrom(before, read) == ParametersFrom(rest, read + [Parameter(name, attributes)])
  {
    Behind(",", rest);
  }

  lemma AfterNameReads(attributes: seq<Attribute>, pad: string, s: string)
    requires (forall i :: 0 <= i < |attributes| ==> ValidAttribute(attributes[i])) && Blank(pad) && Stops(s)
    ensures var list := PrintAttributes(attributes, pad) + s;
            if list == "" then attributes == [] && s == "" else AfterName(list) == Some((s, MapOf(attributes, map[])))
  {
    if attributes == [] {
      assert PrintAttributes(attributes, pad) + s == s;
    } else {
      AttributeListReads(attributes, pad, s);
    }
  }

  lemma LastItemReads(item: Item, pad: string, read: seq<Parameter>)
    requires ValidItem(item) && Blank(pad)
    ensures ParametersFrom(pad + (item.name + (pad + PrintAttributes(item.attributes, pad))), read) ==
            (Some(""), read + [Parameter(item.name, MapOf(item.attributes, map[]))])
  {
    var list := PrintAttributes(item.attributes, pad);
    assert list + "" == list;
    OthersEnd(item.attributes, pad, "");
    NameReads(pad, item.name, list);
    NameFirst(item.name, pad + list);
    AfterNameReads(item.attributes, pad, "");
  }

  lemma PrintedItem(items: seq<Item>, pad: string)
    requires |items| > 1
    ensures Print(items, pad) ==
            pad + (items[0].name + (pad + (PrintAttributes(items[0].attributes, pad) + ("," + Print(items[1..], pad)))))
  {
    Regroup4(pad, items[0].name, pad, PrintAttributes(items[0].attributes, pad), "," + Print(items[1..], pad));
  }

  /** extract_parameters on a printed list consumes all of it and returns what the list means. */
  lemma {:induction false} ParsingInvertsPrinting(items: seq<Item>, pad: string, read: seq<Parameter>)
    requires items != [] && ValidItems(items) && Blank(pad)
    ensures Print(items, pad) != "" && ParametersFrom(Print(items, pad), read) == (Some(""), read + Meant(items))
    decreases |items|
  {
    var item := items[0];
    var one := Parameter(item.name, MapOf(item.attributes, map[]));
    if |items| == 1 {
      LastItemReads(item, pad, read);
      MeantFirst(items, read);
    } else {
      PrintedItem(items, pad);
      ParsingInvertsPrinting(items[1..], pad, read + [one]);
      ItemReads(item, pad, Print(items[1..], pad), read);
      MeantFirst(items, read);
    }
  }

  lemma MeantFirst(items: seq<Item>, read: seq<Parameter>)
    requires items != []
    ensures var one := Parameter(items[0].name, MapOf(items[0].attributes, map[]));
            && read + Meant(items) == read + [one] + Meant(items[1..])
            && (|items| == 1 ==> read + Meant(items) == read + [one])
  {
    var one, others := [Parameter(items[0].name, MapOf(items[0].attributes, map[]))], Meant(items[1..]);
    assert Meant(items) == one + others;
    Regroup2(read, one, others);
    assert |items| == 1 ==> others == [] && one + others == one;
  }

  // ---------------------------------------------------------------- what ends a list before the text does

  /** Something else than a comma ends the list there; a comma with nothing behind it is the syntax error, which
      leaves the parameters in front of it. */
  function Ended(s: string, done: seq<Parameter>): (Option<string>, seq<Parameter>)
    requires s != ""
  {
    if s == "," then (None, done) else (Some(s), done)
  }

  lemma LastItemEnds(item: Item, pad: string, s: string, read: seq<Parameter>)
    requires ValidItem(item) && Blank(pad) && Stops(s) && s != "" && (s[0] == ',' ==> s == ",")
    ensures ParametersFrom(pad + (item.name + (pad + (PrintAttributes(item.attributes, pad) + s))), read) ==
            Ended(s, read + [Parameter(item.name, MapOf(item.attributes, map[]))])
  {
    var list := PrintAttributes(item.attributes, pad) + s;
    OthersEnd(item.attributes, pad, s);
    NameReads(pad, item.name, list);
    AfterNameReads(item.attributes, pad, s);
    PadSkipped("", s);
    assert "" + s == s;
    ParametersEnd(pad + (item.name + (pad + list)), item.name, pad + list, list, s, MapOf(item.attributes, map[]), read);
  }

  lemma ParametersEnd(before: string, name: string, behind: string, list: string, s: string, attributes: Attributes, read: seq<Parameter>)
    requires name != "" && AllLws(before) == name + behind && ExtractToken(name + behind) == (name, behind)
    requires AllLws(behind) == list && list != "" && AfterName(list) == Some((s, attributes))
    requires AllLws(s) == s && s != "" && (s[0] == ',' ==> s == ",")
    ensures ParametersFrom(before, read) == Ended(s, read + [Parameter(name, attributes)])
  {
  }

  /** extract_parameters on a printed list with something behind it. */
  lemma {:induction false} ListEnds(items: seq<Item>, pad: string, s: string, read: seq<Parameter>)
    requires items != [] && ValidItems(items) && Blank(pad) && Stops(s) && s != "" && (s[0] == ',' ==> s == ",")
    ensures ParametersFrom(Print(items, pad) + s, read) == Ended(s, read + Meant(items))
    decreases |items|
  {
    var item := items[0];
    var one := Parameter(item.name, MapOf(item.attributes, map[]));
    MeantFirst(items, read);
    if |items| == 1 {
      LastItemEnds(item, pad, s, read);
      Regroup4(pad, item.name, pad, PrintAttributes(item.attributes, pad), s);
      assert pad + (item.name + (pad + PrintAttributes(item.attributes, pad))) == Print(items, pad);
    } else {
      var more := Print(items[1..], pad) + s;
      ListEnds(items[1..], pad, s, read + [one]);
      ItemReads(item, pad, more, read);
      PrintedItem(items, pad);
      Regroup5(pad, item.name, pad, PrintAttributes(item.attributes, pad), "," + Print(items[1..], pad), s);
      Regroup2(",", Print(items[1..], pad), s);
    }
  }
}
