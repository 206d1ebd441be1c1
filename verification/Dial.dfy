/** How Dial.cpp joins its two halves: the credentials a proxy URL names are the ones that go on the wire. */
module Dial {
  import opened Wrappers
  import ProxyUrl
  import Text
  import opened Socks5

  function ToBytes(s: string): bytes
    requires ProxyUrl.Octets(s)
  {
    seq(|s|, i requires 0 <= i < |s| => s[i] as int as byte)
  }

  predicate HasLogin(p: ProxyUrl.Proxy) {
    p.credentials.Some? ==> ProxyUrl.Octets(p.credentials.value.user) && ProxyUrl.Octets(p.credentials.value.password)
  }

  /** What Socks5Handshake presents. */
  function Login(p: ProxyUrl.Proxy): Option<Credentials<bytes>>
    requires HasLogin(p)
  {
    match p.credentials
    case None => None
    case Some(c) => Some(Credentials(ToBytes(c.user), ToBytes(c.password)))
  }

  /** socks5h leaves the name to the proxy, socks5 resolves it here. */
  function TargetFor(p: ProxyUrl.Proxy, name: bytes, resolved: Option<bytes>): Target {
    if p.remoteDns then Name(name) else Address(resolved)
  }

  lemma HexPair(high: char, low: char)
    requires ProxyUrl.HexDigit(high).Some? && ProxyUrl.HexDigit(low).Some?
    ensures 16 * ProxyUrl.HexDigit(high).value + ProxyUrl.HexDigit(low).value < 256
  {
  }

  lemma {:induction false} DecodedIsOctets(text: string)
    requires ProxyUrl.Octets(text) && ProxyUrl.Decoded(text).Some?
    ensures ProxyUrl.Octets(ProxyUrl.Decoded(text).value)
  {
    if text != "" {
      if text[0] == '%' {
        HexPair(text[1], text[2]);
        DecodedIsOctets(text[3..]);
      } else {
        DecodedIsOctets(text[1..]);
      }
    }
  }

  lemma UserInfoIsOctets(text: string)
    requires ProxyUrl.Octets(text) && ProxyUrl.ParseUserInfo(text).Some?
    ensures var c := ProxyUrl.ParseUserInfo(text).value; ProxyUrl.Octets(c.user) && ProxyUrl.Octets(c.password)
  {
    var colon := Text.Find(text, ":");
    DecodedIsOctets(if colon.Some? then text[..colon.value] else text);
    if colon.Some? {
      DecodedIsOctets(text[colon.value + 1..]);
    }
  }

  lemma BehindSchemeIsOctets(remoteDns: bool, rest: string)
    requires ProxyUrl.Octets(rest) && ProxyUrl.ParseBehindScheme(remoteDns, rest).Some?
    ensures HasLogin(ProxyUrl.ParseBehindScheme(remoteDns, rest).value)
  {
    var at := Text.Find(rest, "@");
    if at.Some? {
      UserInfoIsOctets(rest[..at.value]);
    }
  }

  /** Decoding a URL of octets gives octets. */
  lemma LoginIsOctets(url: string)
    requires ProxyUrl.Octets(url) && ProxyUrl.ParseProxyUrl(url).Some?
    ensures HasLogin(ProxyUrl.ParseProxyUrl(url).value)
  {
    var lowered := Text.LowerAscii(url);
    if "socks5h://" <= lowered {
      BehindSchemeIsOctets(true, url[10..]);
    } else {
      BehindSchemeIsOctets(false, url[9..]);
    }
  }

  /** The addresses that resolving can give, and a port. */
  predicate Reachable(resolved: Option<bytes>, port: nat) {
    (resolved.Some? ==> |resolved.value| == 4 || |resolved.value| == 16) && port < 0x1_0000
  }

  /**
   From the URL to the wire: the lengths ParseProxyUrl lets through fit the one-octet fields, so after a
   successful exchange the octets sent parse back to the URL's credentials and to the target.
   */
  lemma UrlReachesTheWire(url: string, name: bytes, resolved: Option<bytes>, port: nat, answers: bytes)
    requires ProxyUrl.Octets(url) && ProxyUrl.ParseProxyUrl(url).Some? && Reachable(resolved, port)
    ensures var p := ProxyUrl.ParseProxyUrl(url).value;
            && HasLogin(p)
            && var o := Exchange(Login(p), TargetFor(p, name, resolved), port, answers);
               o.Outcome? && o.result.Ok? ==>
                 |answers| >= 2 && ParsesBack(Login(p), TargetFor(p, name, resolved), port, answers[1] == 2, o.sent)
  {
    LoginIsOctets(url);
    ProxyUrl.Bounds(url);
    var p := ProxyUrl.ParseProxyUrl(url).value;
    var o := Exchange(Login(p), TargetFor(p, name, resolved), port, answers);
    if o.Outcome? && o.result.Ok? {
      SentParsesBack(Login(p), TargetFor(p, name, resolved), port, answers);
    }
  }

  /** From the user's credentials through a printed URL to the wire: what the proxy reads is what was meant. */
  lemma PrintedReachesTheWire(p: ProxyUrl.Proxy, kept: set<char>, bracketed: bool, name: bytes, resolved: Option<bytes>, port: nat, answers: bytes)
    requires ProxyUrl.Printable(p, bracketed) && kept !! {'%', ':', '@'} && Reachable(resolved, port)
    ensures HasLogin(p) && ProxyUrl.ParseProxyUrl(ProxyUrl.Print(p, kept, bracketed)) == Some(p)
    ensures var o := Exchange(Login(p), TargetFor(p, name, resolved), port, answers);
            o.Outcome? && o.result.Ok? ==>
              |answers| >= 2 && ParsesBack(Login(p), TargetFor(p, name, resolved), port, answers[1] == 2, o.sent)
  {
    ProxyUrl.ParsingInvertsPrinting(p, kept, bracketed);
    ProxyUrl.Bounds(ProxyUrl.Print(p, kept, bracketed));
    var o := Exchange(Login(p), TargetFor(p, name, resolved), port, answers);
    if o.Outcome? && o.result.Ok? {
      SentParsesBack(Login(p), TargetFor(p, name, resolved), port, answers);
    }
  }
}
