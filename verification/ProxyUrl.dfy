/** ParseProxyUrl of socket/Dial.cpp: which proxy and which credentials a URL names. */
module ProxyUrl {
  import opened Wrappers
  import opened Text

  // ---------------------------------------------------------------- PercentDecode

  function HexDigit(c: char): Option<nat> {
    if Digit(c) < 16 then Some(Digit(c)) else None
  }

  /** None is the exception. */
  function Decoded(text: string): Option<string> {
    if text == "" then Some("")
    else if text[0] != '%' then Prefixed(text[0], Decoded(text[1..]))
    else if |text| < 3 || HexDigit(text[1]).None? || HexDigit(text[2]).None? then None
    else Prefixed((16 * Digit(text[1]) + Digit(text[2])) as char, Decoded(text[3..]))
  }

  function Prefixed(c: char, s: Option<string>): Option<string> {
    if s.None? then None else Some([c] + s.value)
  }

  function Joined(out: string, s: Option<string>): Option<string> {
    if s.None? then None else Some(out + s.value)
  }

  lemma JoinedPrefixed(out: string, c: char, s: Option<string>)
    ensures Joined(out, Prefixed(c, s)) == Joined(out + [c], s)
  {
    if s.Some? {
      assert out + ([c] + s.value) == out + [c] + s.value;
    }
  }

  method PercentDecode(text: string) returns (r: Option<string>)
    ensures r == Decoded(text)
  {
    var out := "";
    var index := 0;
    assert text[0..] == text;
    assert forall s: string :: out + s == s;
    while index < |text|
      invariant index <= |text| && Decoded(text) == Joined(out, Decoded(text[index..]))
    {
      var c := text[index];
      if c != '%' {
        JoinedPrefixed(out, c, Decoded(text[index + 1..]));
        out := out + [c];
        index := index + 1;
        continue;
      }
      if index + 2 >= |text| {
        return None;
      }
      var high, low := HexDigit(text[index + 1]), HexDigit(text[index + 2]);
      if high.None? || low.None? {
        return None;
      }
      assert text[index..][3..] == text[index + 3..];
      c := (16 * high.value + low.value) as char;
      JoinedPrefixed(out, c, Decoded(text[index + 3..]));
      out := out + [c];
      index := index + 3;
    }
    assert out + "" == out;
    return Some(out);
  }

  // ---------------------------------------------------------------- ParseProxyUrl

  datatype Proxy = Proxy(remoteDns: bool, credentials: Option<Credentials<string>>, host: string, port: nat)

  /** std::string::rfind for one character. */
  function FindLast(s: string, c: char): (r: Option<nat>)
    ensures r.Some? ==> r.value < |s| && s[r.value] == c && forall j :: r.value < j < |s| ==> s[j] != c
    ensures r.None? ==> c !in s
  {
    if s == "" then None else if s[|s| - 1] == c then Some(|s| - 1) else FindLast(s[..|s| - 1], c)
  }

  function ParseUserInfo(text: string): Option<Credentials<string>> {
    var colon := Find(text, ":");
    var user := Decoded(if colon.Some? then text[..colon.value] else text);
    var password := if colon.Some? then Decoded(text[colon.value + 1..]) else Some("");
    if user.None? || password.None? || user.value == "" || |user.value| > 255 || |password.value| > 255 then None
    else Some(Credentials(user.value, password.value))
  }

  /** Host and port text; the colon in front of the port is not part of either. */
  function SplitAuthority(text: string): Option<(string, string)> {
    if text != "" && text[0] == '[' then
      var closing := Find(text, "]");
      if closing.None? then None
      else
        var rest := text[closing.value + 1..];
        if rest == "" || rest[0] != ':' then None else Some((text[1..closing.value], rest[1..]))
    else
      var colon := FindLast(text, ':');
      if colon.None? then None else Some((text[..colon.value], text[colon.value + 1..]))
  }

  function ParseAuthority(remoteDns: bool, credentials: Option<Credentials<string>>, text: string): Option<Proxy> {
    var parts := SplitAuthority(text);
    if parts.None? then None
    else
      var (host, port) := parts.value;
      if port == "" || |port| > 5 || !Digits(port) then None
      else if host == "" || Value(port, 10) == 0 || Value(port, 10) > 65535 then None
      else Some(Proxy(remoteDns, credentials, host, Value(port, 10)))
  }

  function ParseBehindScheme(remoteDns: bool, rest: string): Option<Proxy> {
    var at := Find(rest, "@");
    if at.None? then ParseAuthority(remoteDns, None, rest)
    else
      var behind := rest[at.value + 1..];
      if Find(behind, "@").Some? then None
      else
        var credentials := ParseUserInfo(rest[..at.value]);
        if credentials.None? then None else ParseAuthority(remoteDns, credentials, behind)
  }

  /** None is the exception; all of them carry the code proxy_url_invalid. */
  function ParseProxyUrl(url: string): Option<Proxy> {
    ParseLowered(LowerAscii(url), url)
  }

  function ParseLowered(lowered: string, url: string): Option<Proxy>
    requires |lowered| == |url|
  {
    if "socks5h://" <= lowered then ParseBehindScheme(true, url[10..])
    else if "socks5://" <= lowered then ParseBehindScheme(false, url[9..])
    else None
  }

  /** The loop over the digits of the port. */
  method ReadPort(text: string) returns (r: Option<nat>)
    requires |text| <= 5
    ensures r == if Digits(text) then Some(Value(text, 10)) else None
  {
    var port := 0;
    for i := 0 to |text|
      invariant Digits(text[..i]) && port == Value(text[..i], 10)
    {
      if text[i] < '0' || text[i] > '9' {
        return None;
      }
      assert text[..i + 1][..i] == text[..i];
      port := port * 10 + (text[i] as int - '0' as int);
    }
    assert text[..|text|] == text;
    return Some(port);
  }

  method ReadProxyUrl(url: string) returns (r: Option<Proxy>)
    ensures r == ParseProxyUrl(url)
  {
    var lowered := LowerAscii(url);
    var remoteDns := "socks5h://" <= lowered;
    if !remoteDns && !("socks5://" <= lowered) {
      return None;
    }
    var rest := url[if remoteDns then 10 else 9..];
    var credentials: Option<Credentials<string>> := None;
    var at := Find(rest, "@");
    if at.Some? {
      var userInfo := rest[..at.value];
      rest := rest[at.value + 1..];
      if Find(rest, "@").Some? {
        return None;
      }
      credentials := ReadUserInfo(userInfo);
      if credentials.None? {
        return None;
      }
    }
    r := ReadAuthority(remoteDns, credentials, rest);
  }

  method ReadUserInfo(text: string) returns (r: Option<Credentials<string>>)
    ensures r == ParseUserInfo(text)
  {
    var colon := Find(text, ":");
    var user := PercentDecode(if colon.Some? then text[..colon.value] else text);
    if user.None? {
      return None;
    }
    var password := Some("");
    if colon.Some? {
      password := PercentDecode(text[colon.value + 1..]);
    }
    if password.None? || user.value == "" || |user.value| > 255 || |password.value| > 255 {
      return None;
    }
    return Some(Credentials(user.value, password.value));
  }

  method ReadAuthority(remoteDns: bool, credentials: Option<Credentials<string>>, text: string) returns (r: Option<Proxy>)
    ensures r == ParseAuthority(remoteDns, credentials, text)
  {
    var parts := SplitAuthority(text);
    if parts.None? {
      return None;
    }
    var (host, portText) := parts.value;
    if portText == "" || |portText| > 5 {
      return None;
    }
    var port := ReadPort(portText);
    if port.None? || host == "" || port.value == 0 || port.value > 65535 {
      return None;
    }
    return Some(Proxy(remoteDns, credentials, host, port.value));
  }

  /** What the SOCKS5 exchange relies on: lengths that fit one octet, and a port. */
  lemma Bounds(url: string)
    ensures var p := ParseProxyUrl(url);
            p.Some? ==>
              && p.value.host != "" && 1 <= p.value.port <= 65535
              && (p.value.credentials.Some? ==> 1 <= |p.value.credentials.value.user| <= 255 && |p.value.credentials.value.password| <= 255)
  {
  }

  // ---------------------------------------------------------------- parsing inverts printing

  function HexChar(d: nat): char
    requires d < 16
  {
    if d < 10 then (d + '0' as int) as char else (d - 10 + 'A' as int) as char
  }

  /** Some characters kept, the others as escapes. */
  function Escaped(kept: set<char>, s: string): string
    requires forall i :: 0 <= i < |s| ==> s[i] as int < 256
  {
    if s == "" then ""
    else (if s[0] in kept then [s[0]] else ['%', HexChar(s[0] as int / 16), HexChar(s[0] as int % 16)]) + Escaped(kept, s[1..])
  }

  lemma HexCharReads(d: nat)
    requires d < 16
    ensures Digit(HexChar(d)) == d && HexChar(d) !in {'%', '@', ':', '['}
  {
  }

  lemma {:induction false} DecodedEscaped(kept: set<char>, s: string)
    requires '%' !in kept && forall i :: 0 <= i < |s| ==> s[i] as int < 256
    ensures Decoded(Escaped(kept, s)) == Some(s)
  {
    if s != "" {
      DecodedEscaped(kept, s[1..]);
      var t, rest := Escaped(kept, s), Escaped(kept, s[1..]);
      assert [s[0]] + s[1..] == s;
      if s[0] in kept {
        assert t[1..] == rest;
      } else {
        var high, low := s[0] as int / 16, s[0] as int % 16;
        HexCharReads(high);
        HexCharReads(low);
        assert t[1] == HexChar(high) && t[2] == HexChar(low) && t[3..] == rest;
        assert (16 * high + low) as char == s[0];
      }
    }
  }

  lemma {:induction false} EscapedAvoids(kept: set<char>, s: string, c: char)
    requires c !in kept && c in {'@', ':'} && forall i :: 0 <= i < |s| ==> s[i] as int < 256
    ensures c !in Escaped(kept, s)
  {
    if s != "" {
      EscapedAvoids(kept, s[1..], c);
      HexCharReads(s[0] as int / 16);
      HexCharReads(s[0] as int % 16);
    }
  }

  /** A proxy URL: the escapes are the printer's choice, and so are the brackets around the host. */
  function Print(p: Proxy, kept: set<char>, bracketed: bool): string
    requires Printable(p, bracketed)
  {
    (if p.remoteDns then "socks5h://" else "socks5://") + (PrintCredentials(p.credentials, kept) + PrintAuthority(p, bracketed))
  }

  function PrintCredentials(c: Option<Credentials<string>>, kept: set<char>): string
    requires c.Some? ==> Octets(c.value.user) && Octets(c.value.password)
  {
    if c.None? then "" else Escaped(kept, c.value.user) + ":" + Escaped(kept, c.value.password) + "@"
  }

  function PrintAuthority(p: Proxy, bracketed: bool): string {
    (if bracketed then "[" + p.host + "]" else p.host) + ":" + Decimal(p.port)
  }

  predicate Octets(s: string) {
    forall i :: 0 <= i < |s| ==> s[i] as int < 256
  }

  predicate Printable(p: Proxy, bracketed: bool) {
    && (p.credentials.Some? ==> Octets(p.credentials.value.user) && Octets(p.credentials.value.password))
    && (p.credentials.Some? ==> 1 <= |p.credentials.value.user| <= 255 && |p.credentials.value.password| <= 255)
    && p.host != "" && '@' !in p.host && (if bracketed then ']' !in p.host else p.host[0] != '[')
    && 1 <= p.port <= 65535
  }

  lemma FindNone(s: string, c: char)
    requires c !in s
    ensures Find(s, [c]).None?
  {
    forall i: nat | i + 1 <= |s| ensures !Occurs(s, [c], i) {
      assert s[i..i + 1][0] == s[i];
    }
  }

  lemma FindFirst(s: string, c: char, rest: string)
    requires c !in s
    ensures Find(s + [c] + rest, [c]) == Some(|s|)
  {
    var t := s + [c] + rest;
    assert t[|s|..|s| + 1] == [c];
    assert Occurs(t, [c], |s|);
    forall i: nat | i < |s| ensures !Occurs(t, [c], i) {
      assert t[i..i + 1][0] == s[i];
    }
  }

  lemma BracketedParsesBack(host: string, port: string)
    requires ']' !in host
    ensures SplitAuthority("[" + host + "]" + ":" + port) == Some((host, port))
  {
    var text := "[" + host + "]" + ":" + port;
    assert text == ("[" + host) + "]" + (":" + port);
    FindFirst("[" + host, ']', ":" + port);
    assert text[|host| + 2..] == ":" + port;
    assert (":" + port)[1..] == port;
    assert text[1..|host| + 1] == host;
  }

  lemma PlainParsesBack(host: string, port: string)
    requires host != "" && host[0] != '[' && ':' !in port
    ensures SplitAuthority(host + ":" + port) == Some((host, port))
  {
    var text := host + ":" + port;
    assert text[|host|] == ':' && forall j :: |host| < j < |text| ==> text[j] == port[j - |host| - 1];
    assert FindLast(text, ':') == Some(|host|);
    assert text[..|host|] == host && text[|host| + 1..] == port;
  }

  lemma AuthorityParsesBack(p: Proxy, bracketed: bool)
    requires Printable(p, bracketed)
    ensures SplitAuthority(PrintAuthority(p, bracketed)) == Some((p.host, Decimal(p.port)))
  {
    if bracketed {
      BracketedParsesBack(p.host, Decimal(p.port));
    } else {
      PlainParsesBack(p.host, Decimal(p.port));
    }
  }

  lemma AuthorityHasNoAt(p: Proxy, bracketed: bool)
    requires Printable(p, bracketed)
    ensures '@' !in PrintAuthority(p, bracketed)
  {
    var port := Decimal(p.port);
    assert '@' !in port;
  }

  lemma ProxyParsesBack(p: Proxy, bracketed: bool)
    requires Printable(p, bracketed)
    ensures ParseAuthority(p.remoteDns, p.credentials, PrintAuthority(p, bracketed)) == Some(p)
  {
    AuthorityParsesBack(p, bracketed);
    assert Tens(5) == 10 * Tens(4) == 10 * (10 * (10 * Tens(2)));
    DecimalLength(p.port, 5);
  }

  lemma UserInfoParsesBack(c: Credentials<string>, kept: set<char>)
    requires Octets(c.user) && Octets(c.password) && 1 <= |c.user| <= 255 && |c.password| <= 255
    requires '%' !in kept && ':' !in kept
    ensures ParseUserInfo(Escaped(kept, c.user) + ":" + Escaped(kept, c.password)) == Some(c)
  {
    var user, password := Escaped(kept, c.user), Escaped(kept, c.password);
    var text := user + ":" + password;
    EscapedAvoids(kept, c.user, ':');
    FindFirst(user, ':', password);
    assert text[..|user|] == user && text[|user| + 1..] == password;
    DecodedEscaped(kept, c.user);
    DecodedEscaped(kept, c.password);
  }

  lemma BehindSchemeParsesBack(p: Proxy, kept: set<char>, bracketed: bool)
    requires Printable(p, bracketed) && kept !! {'%', ':', '@'}
    ensures ParseBehindScheme(p.remoteDns, PrintCredentials(p.credentials, kept) + PrintAuthority(p, bracketed)) == Some(p)
  {
    var authority := PrintAuthority(p, bracketed);
    AuthorityHasNoAt(p, bracketed);
    ProxyParsesBack(p, bracketed);
    FindNone(authority, '@');
    if p.credentials.None? {
      assert "" + authority == authority;
    } else {
      var c := p.credentials.value;
      var info := Escaped(kept, c.user) + ":" + Escaped(kept, c.password);
      assert PrintCredentials(p.credentials, kept) + authority == info + "@" + authority;
      EscapedAvoids(kept, c.user, '@');
      EscapedAvoids(kept, c.password, '@');
      UserInfoParsesBack(c, kept);
      SplitsAtAt(p, info, authority);
    }
  }

  lemma SplitsAtAt(p: Proxy, info: string, authority: string)
    requires '@' !in info && Find(authority, "@").None? && p.credentials.Some?
    requires ParseUserInfo(info) == p.credentials && ParseAuthority(p.remoteDns, p.credentials, authority) == Some(p)
    ensures ParseBehindScheme(p.remoteDns, info + "@" + authority) == Some(p)
  {
    var text := info + "@" + authority;
    FindFirst(info, '@', authority);
    assert text[..|info|] == info && text[|info| + 1..] == authority;
  }

  /** The URL of a proxy, however its credentials are escaped, parses back to the proxy. */
  lemma ParsingInvertsPrinting(p: Proxy, kept: set<char>, bracketed: bool)
    requires Printable(p, bracketed) && kept !! {'%', ':', '@'}
    ensures ParseProxyUrl(Print(p, kept, bracketed)) == Some(p)
  {
    BehindSchemeParsesBack(p, kept, bracketed);
    SchemeSplits(p.remoteDns, PrintCredentials(p.credentials, kept) + PrintAuthority(p, bracketed));
  }

  lemma SchemeSplits(remoteDns: bool, rest: string)
    ensures ParseProxyUrl((if remoteDns then "socks5h://" else "socks5://") + rest) == ParseBehindScheme(remoteDns, rest)
  {
    var scheme := if remoteDns then "socks5h://" else "socks5://";
    SchemeIsLower(scheme, rest);
    SchemeChooses(remoteDns, LowerAscii(scheme + rest), scheme + rest, rest);
  }

  lemma SchemeChooses(remoteDns: bool, lowered: string, url: string, rest: string)
    requires |lowered| == |url| && url == (if remoteDns then "socks5h://" else "socks5://") + rest
    requires (if remoteDns then "socks5h://" else "socks5://") <= lowered
    ensures ParseLowered(lowered, url) == ParseBehindScheme(remoteDns, rest)
  {
    if remoteDns {
      assert url[10..] == rest;
    } else {
      assert lowered[6] == ':' && url[9..] == rest;
    }
  }

  lemma SchemeIsLower(scheme: string, rest: string)
    requires scheme in {"socks5h://", "socks5://"}
    ensures scheme <= LowerAscii(scheme + rest)
  {
    var url, lowered := scheme + rest, LowerAscii(scheme + rest);
    forall i | 0 <= i < |scheme| ensures lowered[i] == scheme[i] {
      assert lowered[i] == Lower(url[i]) == Lower(scheme[i]);
    }
  }

  // ---------------------------------------------------------------- exactly the URLs that are taken

  /** One octet is a character other than %, or % and two hexadecimal digits of either case. */
  predicate Escapes(text: string, s: string) {
    if text == "" then s == ""
    else if text[0] != '%' then s != "" && s[0] == text[0] && Escapes(text[1..], s[1..])
    else
      && s != "" && |text| >= 3 && IsHex(text[1]) && IsHex(text[2])
      && s[0] as int == 16 * HexValue(text[1]) + HexValue(text[2]) && Escapes(text[3..], s[1..])
  }

  predicate IsHex(c: char) {
    '0' <= c <= '9' || 'a' <= c <= 'f' || 'A' <= c <= 'F'
  }

  function HexValue(c: char): nat
    requires IsHex(c)
  {
    if c <= '9' then c as nat - '0' as nat else if c <= 'F' then c as nat - 'A' as nat + 10 else c as nat - 'a' as nat + 10
  }

  lemma {:induction false} DecodedExactly(text: string, s: string)
    ensures Decoded(text) == Some(s) <==> Escapes(text, s)
    decreases |text|
  {
    if text == "" {
    } else if text[0] != '%' {
      if s != "" {
        DecodedExactly(text[1..], s[1..]);
        assert s == [s[0]] + s[1..];
      }
    } else if |text| >= 3 && s != "" {
      DecodedExactly(text[3..], s[1..]);
      assert s == [s[0]] + s[1..];
      HexExactly(text[1]);
      HexExactly(text[2]);
    } else if |text| >= 3 {
      HexExactly(text[1]);
    }
  }

  lemma HexExactly(c: char)
    ensures HexDigit(c) == if IsHex(c) then Some(HexValue(c)) else None
  {
  }

  /** How a URL may spell a proxy: the case of the scheme, the escapes, whether a password is there at all,
      brackets around the host, and zeros in front of the port. */
  datatype Spelling = Spelling(scheme: string, user: string, password: Option<string>, bracketed: bool, port: string)

  function SpellCredentials(t: Spelling): string {
    t.user + if t.password.Some? then ":" + t.password.value else ""
  }

  function SpellAuthority(t: Spelling, host: string): string {
    (if t.bracketed then "[" + host + "]" else host) + ":" + t.port
  }

  predicate SpelledCredentials(t: Spelling, c: Credentials<string>) {
    && ':' !in t.user && '@' !in SpellCredentials(t)
    && Escapes(t.user, c.user) && 1 <= |c.user| <= 255
    && (if t.password.Some? then Escapes(t.password.value, c.password) && |c.password| <= 255 else c.password == "")
  }

  predicate SpelledAuthority(t: Spelling, host: string, port: nat) {
    && host != "" && (if t.bracketed then ']' !in host else host[0] != '[')
    && 1 <= |t.port| <= 5 && Digits(t.port) && Value(t.port, 10) == port && 1 <= port <= 65535
  }

  predicate Spells(t: Spelling, p: Proxy, url: string) {
    && InSmall(t.scheme, if p.remoteDns then "socks5h://" else "socks5://")
    && SpelledAuthority(t, p.host, p.port) && '@' !in p.host
    && if p.credentials.None? then url == t.scheme + SpellAuthority(t, p.host)
       else
         && SpelledCredentials(t, p.credentials.value)
         && url == t.scheme + (SpellCredentials(t) + "@" + SpellAuthority(t, p.host))
  }

  lemma AuthorityIsTaken(t: Spelling, remoteDns: bool, credentials: Option<Credentials<string>>, host: string, port: nat)
    requires SpelledAuthority(t, host, port)
    ensures ParseAuthority(remoteDns, credentials, SpellAuthority(t, host)) == Some(Proxy(remoteDns, credentials, host, port))
  {
    if t.bracketed {
      BracketedParsesBack(host, t.port);
    } else {
      PlainParsesBack(host, t.port);
    }
  }

  lemma AuthorityIsSpelled(remoteDns: bool, credentials: Option<Credentials<string>>, text: string)
    returns (bracketed: bool, port: string)
    requires ParseAuthority(remoteDns, credentials, text).Some?
    ensures var p, t := ParseAuthority(remoteDns, credentials, text).value, Spelling("", "", None, bracketed, port);
            SpelledAuthority(t, p.host, p.port) && text == SpellAuthority(t, p.host)
            && p.remoteDns == remoteDns && p.credentials == credentials
  {
    bracketed := text[0] == '[';
    var (host, digits) := SplitAuthority(text).value;
    port := digits;
    if bracketed {
      ClosingBracket(text, Find(text, "]").value);
    } else {
      LastColon(text, FindLast(text, ':').value);
    }
  }

  lemma ClosingBracket(text: string, closing: nat)
    requires text != "" && text[0] == '[' && Find(text, "]") == Some(closing) && closing + 1 < |text| && text[closing + 1] == ':'
    ensures closing >= 1
    ensures ']' !in text[1..closing] && text == "[" + text[1..closing] + "]" + ":" + text[closing + 2..]
  {
    assert text[closing..closing + 1] == "]";
    forall j | 1 <= j < closing ensures text[j] != ']' {
      assert !Occurs(text, "]", j);
      assert text[j..j + 1] == [text[j]];
    }
  }

  lemma LastColon(text: string, colon: nat)
    requires FindLast(text, ':') == Some(colon)
    ensures text == text[..colon] + ":" + text[colon + 1..]
  {
  }

  lemma CredentialsAreTaken(t: Spelling, c: Credentials<string>)
    requires SpelledCredentials(t, c)
    ensures ParseUserInfo(SpellCredentials(t)) == Some(c)
  {
    DecodedExactly(t.user, c.user);
    var text := SpellCredentials(t);
    if t.password.Some? {
      DecodedExactly(t.password.value, c.password);
      assert text == t.user + ":" + t.password.value;
      FindFirst(t.user, ':', t.password.value);
      assert text[..|t.user|] == t.user && text[|t.user| + 1..] == t.password.value;
    } else {
      assert text == t.user;
      FindNone(t.user, ':');
    }
  }

  lemma CredentialsAreSpelled(text: string) returns (user: string, password: Option<string>)
    requires ParseUserInfo(text).Some? && '@' !in text
    ensures var t := Spelling("", user, password, false, "");
            SpelledCredentials(t, ParseUserInfo(text).value) && text == SpellCredentials(t)
  {
    var colon, c := Find(text, ":"), ParseUserInfo(text).value;
    if colon.Some? {
      user, password := text[..colon.value], Some(text[colon.value + 1..]);
      DecodedExactly(password.value, c.password);
      assert text[colon.value..colon.value + 1] == ":";
      NotBefore(text, ':', colon.value);
    } else {
      user, password := text, None;
      NotBefore(text, ':', |text|);
    }
    DecodedExactly(user, c.user);
  }

  lemma NotBefore(s: string, c: char, n: nat)
    requires n <= |s| && forall j :: 0 <= j < n ==> !Occurs(s, [c], j)
    ensures c !in s[..n]
  {
    forall j | 0 <= j < n ensures s[j] != c {
      assert !Occurs(s, [c], j) && s[j..j + 1] == [s[j]];
    }
  }

  lemma SchemeIsTaken(scheme: string, remoteDns: bool, rest: string)
    requires InSmall(scheme, if remoteDns then "socks5h://" else "socks5://")
    ensures ParseProxyUrl(scheme + rest) == ParseBehindScheme(remoteDns, rest)
  {
    var small := if remoteDns then "socks5h://" else "socks5://";
    var lowered := LowerAscii(scheme + rest);
    assert forall i :: 0 <= i < |small| ==> lowered[i] == Lower((scheme + rest)[i]) == SmallLetter(scheme[i]) == small[i];
    assert small <= lowered && (scheme + rest)[|small|..] == rest;
    if !remoteDns {
      assert lowered[6] == ':';
    }
  }

  lemma SchemeIsSpelled(url: string) returns (scheme: string, remoteDns: bool, rest: string)
    requires ParseProxyUrl(url).Some?
    ensures InSmall(scheme, if remoteDns then "socks5h://" else "socks5://") && url == scheme + rest
    ensures ParseProxyUrl(url) == ParseBehindScheme(remoteDns, rest)
  {
    var lowered := LowerAscii(url);
    remoteDns := "socks5h://" <= lowered;
    var n := if remoteDns then 10 else 9;
    scheme, rest := url[..n], url[n..];
    assert forall i :: 0 <= i < n ==> lowered[i] == Lower(url[i]) == SmallLetter(url[i]);
  }

  lemma SpelledIsTaken(t: Spelling, p: Proxy, url: string)
    requires Spells(t, p, url)
    ensures ParseProxyUrl(url) == Some(p)
  {
    var authority, credentials := SpellAuthority(t, p.host), SpellCredentials(t);
    AuthorityIsTaken(t, p.remoteDns, p.credentials, p.host, p.port);
    assert '@' !in authority;
    FindNone(authority, '@');
    if p.credentials.None? {
      SchemeIsTaken(t.scheme, p.remoteDns, authority);
    } else {
      SchemeIsTaken(t.scheme, p.remoteDns, credentials + "@" + authority);
      CredentialsAreTaken(t, p.credentials.value);
      SplitsAtAt(p, credentials, authority);
    }
  }

  lemma BareIsSpelled(scheme: string, remoteDns: bool, rest: string) returns (t: Spelling)
    requires '@' !in rest && ParseAuthority(remoteDns, None, rest).Some?
    requires InSmall(scheme, if remoteDns then "socks5h://" else "socks5://")
    ensures Spells(t, ParseAuthority(remoteDns, None, rest).value, scheme + rest)
  {
    var bracketed, port := AuthorityIsSpelled(remoteDns, None, rest);
    t := Spelling(scheme, "", None, bracketed, port);
  }

  lemma LoginIsSpelled(scheme: string, remoteDns: bool, info: string, behind: string) returns (t: Spelling)
    requires '@' !in info && '@' !in behind && ParseUserInfo(info).Some?
    requires ParseAuthority(remoteDns, ParseUserInfo(info), behind).Some?
    requires InSmall(scheme, if remoteDns then "socks5h://" else "socks5://")
    ensures Spells(t, ParseAuthority(remoteDns, ParseUserInfo(info), behind).value, scheme + (info + "@" + behind))
  {
    var user, password := CredentialsAreSpelled(info);
    var bracketed, port := AuthorityIsSpelled(remoteDns, ParseUserInfo(info), behind);
    t := Spelling(scheme, user, password, bracketed, port);
    assert SpellCredentials(t) == info && SpellAuthority(t, ParseAuthority(remoteDns, ParseUserInfo(info), behind).value.host) == behind;
  }

  lemma AtSplits(rest: string, at: nat)
    requires Find(rest, "@") == Some(at)
    ensures at < |rest| && rest == rest[..at] + "@" + rest[at + 1..] && '@' !in rest[..at]
    ensures Find(rest[at + 1..], "@").None? ==> '@' !in rest[at + 1..]
  {
    assert rest[at..at + 1] == "@";
    NotBefore(rest, '@', at);
    if Find(rest[at + 1..], "@").None? {
      NotBefore(rest[at + 1..], '@', |rest| - at - 1);
    }
  }

  lemma TakenIsSpelled(url: string) returns (t: Spelling)
    requires ParseProxyUrl(url).Some?
    ensures Spells(t, ParseProxyUrl(url).value, url)
  {
    var scheme, remoteDns, rest := SchemeIsSpelled(url);
    t := BehindSchemeIsSpelled(scheme, remoteDns, rest);
  }

  lemma BehindSchemeIsSpelled(scheme: string, remoteDns: bool, rest: string) returns (t: Spelling)
    requires ParseBehindScheme(remoteDns, rest).Some?
    requires InSmall(scheme, if remoteDns then "socks5h://" else "socks5://")
    ensures Spells(t, ParseBehindScheme(remoteDns, rest).value, scheme + rest)
  {
    var at := Find(rest, "@");
    if at.None? {
      NotBefore(rest, '@', |rest|);
      t := BareIsSpelled(scheme, remoteDns, rest);
    } else {
      AtSplits(rest, at.value);
      t := LoginIsSpelled(scheme, remoteDns, rest[..at.value], rest[at.value + 1..]);
    }
  }

  /** ParseProxyUrl takes exactly the spellings of a proxy, and takes them for that proxy. */
  lemma TakenExactly(url: string, p: Proxy)
    ensures ParseProxyUrl(url) == Some(p) <==> exists t: Spelling :: Spells(t, p, url)
  {
    if ParseProxyUrl(url).Some? {
      var t := TakenIsSpelled(url);
    }
    forall t: Spelling | Spells(t, p, url) ensures ParseProxyUrl(url) == Some(p) {
      SpelledIsTaken(t, p, url);
    }
  }
}
