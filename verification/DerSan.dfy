/**
 The DER walk of socket/TlsVerify.cpp: the names a certificate presents, read out of nested
 tag-length-value encodings (section 8.1 of X.690, sections 4.1 and 4.2.1.6 of RFC 5280).
 */
module DerSan {
  import opened Wrappers

  // ---------------------------------------------------------------- ReadTlv

  /** The content starts behind `header` octets and has `size` octets. */
  datatype Tlv = Tlv(header: nat, size: nat) {
    function End(): nat { header + size }

    function Content(data: bytes): bytes
      requires End() <= |data|
    {
      data[header..End()]
    }

    function After(data: bytes): bytes
      requires End() <= |data|
    {
      data[End()..]
    }
  }

  function ReadTlv(data: bytes): (r: Option<Tlv>)
    ensures r.Some? ==> 2 <= r.value.header && r.value.End() <= |data|
  {
    if |data| < 2 then None
    else
      var first := data[1] as nat;
      if first < 0x80 then Within(data, 2, first)
      else
        var count := first - 0x80;
        if count == 0 || count > 4 || |data| < 2 + count then None
        else Within(data, 2 + count, FromBigEndian(data[2..2 + count]))
  }

  function Within(data: bytes, header: nat, size: nat): Option<Tlv> {
    if |data| < header + size then None else Some(Tlv(header, size))
  }

  /** ReadTlv as the source computes it. */
  method ReadTlvLoop(data: bytes) returns (r: Option<Tlv>)
    ensures r == ReadTlv(data)
  {
    if |data| < 2 {
      return None;
    }
    var offset := 1;
    var length := data[1] as nat;
    if length >= 0x80 {
      var count := length - 0x80;
      if count == 0 || count > 4 || |data| < 1 + count + 1 {
        return None;
      }
      length := 0;
      for index := 0 to count
        invariant length == FromBigEndian(data[2..2 + index])
      {
        assert data[2..2 + index + 1][..index] == data[2..2 + index];
        length := length * 256 + data[offset + 1 + index] as nat;
      }
      offset := 1 + count;
    }
    if |data| < offset + 1 + length {
      return None;
    }
    return Some(Tlv(offset + 1, length));
  }

  /** IsOid looks only at the octets it is given: it is a prefix test. */
  method IsOid(data: bytes, encoded: bytes) returns (r: bool)
    ensures r <==> encoded <= data
  {
    var index := 0;
    while index < |encoded|
      invariant index <= |encoded| && index <= |data| && encoded[..index] == data[..index]
    {
      if index >= |data| || data[index] != encoded[index] {
        return false;
      }
      index := index + 1;
    }
    return true;
  }

  const SAN_OID: bytes := [0x55, 0x1D, 0x11]

  // ---------------------------------------------------------------- the three walks

  /** dns_names and ip_names; an address is kept as its octets. */
  datatype Names = Names(dns: seq<bytes>, ips: seq<bytes>)

  function Plus(a: Names, b: Names): Names { Names(a.dns + b.dns, a.ips + b.ips) }

  /** One GeneralName: [2] dNSName, [7] iPAddress, anything else is passed over. */
  function NameOf(tag: byte, content: bytes): Names {
    if tag == 0x82 then Names([content], []) else if tag == 0x87 then Names([], [content]) else Names([], [])
  }

  /** The names up to the first entry that cannot be read. */
  function NamesIn(data: bytes): Names
    decreases |data|
  {
    match ReadTlv(data)
    case None => Names([], [])
    case Some(entry) => Plus(NameOf(data[0], entry.Content(data)), NamesIn(entry.After(data)))
  }

  function GeneralNames(data: bytes): Names {
    match ReadTlv(data)
    case None => Names([], [])
    case Some(sequence) => if data[0] != 0x30 then Names([], []) else NamesIn(sequence.Content(data))
  }

  method ReadGeneralNames(data: bytes, names: Names) returns (r: Names)
    ensures r == Plus(names, GeneralNames(data))
  {
    r := names;
    var sequence := ReadTlvLoop(data);
    if sequence.None? || data[0] != 0x30 {
      return;
    }
    var cursor := sequence.value.Content(data);
    while |cursor| > 0
      invariant Plus(names, GeneralNames(data)) == Plus(r, NamesIn(cursor))
      decreases |cursor|
    {
      var entry := ReadTlvLoop(cursor);
      if entry.None? {
        return;
      }
      ghost var name := NameOf(cursor[0], entry.value.Content(cursor));
      PlusTwice(r, name, NamesIn(entry.value.After(cursor)));
      if cursor[0] == 0x82 {
        r := r.(dns := r.dns + [entry.value.Content(cursor)]);
      } else if cursor[0] == 0x87 {
        r := r.(ips := r.ips + [entry.value.Content(cursor)]);
      }
      cursor := entry.value.After(cursor);
    }
  }

  lemma PlusTwice(a: Names, b: Names, c: Names)
    ensures Plus(a, Plus(b, c)) == Plus(Plus(a, b), c)
    ensures Plus(a, Names([], [])) == a == Plus(Names([], []), a)
  {
    assert a.dns + (b.dns + c.dns) == a.dns + b.dns + c.dns;
    assert a.ips + (b.ips + c.ips) == a.ips + b.ips + c.ips;
  }

  /** What is behind the extnID of a subjectAltName extension. The octet read as the first of the content is
      stray, an octet from behind the extension, when that content is empty. */
  function SanValue(next: bytes, stray: byte): Option<Names> {
    match ReadTlv(next)
    case None => None
    case Some(first) =>
      var octet := if first.size > 0 then next[first.header] else stray;
      var value := if octet == 0x01 then first.After(next) else next;
      match ReadTlv(value)
      case None => None
      case Some(tlv) => if value[0] != 0x04 then None else Some(GeneralNames(tlv.Content(value)))
  }

  /** None is the return value false. */
  function SanExtension(data: bytes, stray: byte): Option<Names>
    decreases |data|
  {
    match ReadTlv(data)
    case None => None
    case Some(extension) =>
      var inner := extension.Content(data);
      match ReadTlv(inner)
      case None => None
      case Some(oid) =>
        if SAN_OID <= oid.Content(inner) then SanValue(oid.After(inner), stray)
        else SanExtension(extension.After(data), stray)
  }

  method ReadSanExtension(data: bytes, stray: byte) returns (r: Option<Names>)
    ensures r == SanExtension(data, stray)
  {
    var cursor := data;
    while |cursor| > 0
      invariant SanExtension(data, stray) == SanExtension(cursor, stray)
      decreases |cursor|
    {
      var extension := ReadTlvLoop(cursor);
      if extension.None? {
        return None;
      }
      var inner := extension.value.Content(cursor);
      var oid := ReadTlvLoop(inner);
      if oid.None? {
        return None;
      }
      var isSan := IsOid(oid.value.Content(inner), SAN_OID);
      if isSan {
        r := ReadSanValue(oid.value.After(inner), stray);
        return;
      }
      cursor := extension.value.After(cursor);
    }
    return None;
  }

  method ReadSanValue(data: bytes, stray: byte) returns (r: Option<Names>)
    ensures r == SanValue(data, stray)
  {
    var next := data;
    var first := ReadTlvLoop(next);
    if first.None? {
      return None;
    }
    if (if first.value.size > 0 then next[first.value.header] else stray) == 0x01 {
      next := first.value.After(next);
    }
    var value := ReadTlvLoop(next);
    if value.None? || next[0] != 0x04 {
      return None;
    }
    var names := ReadGeneralNames(value.value.Content(next), Names([], []));
    PlusTwice(GeneralNames(value.value.Content(next)), Names([], []), Names([], []));
    return Some(names);
  }

  /** The fields of the TBSCertificate up to [3]. */
  function TbsNames(data: bytes, stray: byte): Option<Names>
    decreases |data|
  {
    match ReadTlv(data)
    case None => None
    case Some(field) =>
      if data[0] == 0xA3 then
        match ReadTlv(field.Content(data))
        case None => None
        case Some(extensions) => SanExtension(extensions.Content(field.Content(data)), stray)
      else TbsNames(field.After(data), stray)
  }

  function AltNames(der: bytes, stray: byte): Option<Names> {
    match ReadTlv(der)
    case None => None
    case Some(outer) =>
      match ReadTlv(outer.Content(der))
      case None => None
      case Some(tbs) => TbsNames(tbs.Content(outer.Content(der)), stray)
  }

  method ReadAltNames(der: bytes, stray: byte) returns (r: Option<Names>)
    ensures r == AltNames(der, stray)
  {
    var outer := ReadTlvLoop(der);
    if outer.None? {
      return None;
    }
    var tbs := ReadTlvLoop(outer.value.Content(der));
    if tbs.None? {
      return None;
    }
    var cursor := tbs.value.Content(outer.value.Content(der));
    while |cursor| > 0
      invariant AltNames(der, stray) == TbsNames(cursor, stray)
      decreases |cursor|
    {
      var field := ReadTlvLoop(cursor);
      if field.None? {
        return None;
      }
      if cursor[0] == 0xA3 {
        var content := field.value.Content(cursor);
        var extensions := ReadTlvLoop(content);
        if extensions.None? {
          return None;
        }
        r := ReadSanExtension(extensions.value.Content(content), stray);
        return;
      }
      cursor := field.value.After(cursor);
    }
    return None;
  }

  // ---------------------------------------------------------------- DER encoding

  const LIMIT: nat := 0x1_0000_0000

  /** The definite form with as few octets as possible (section 10.1 of X.690). */
  function EncodeLength(n: nat): (s: bytes)
    ensures |s| > 0
  {
    if n < 0x80 then [n as byte] else [((0x80 + |Octets(n)|) % 256) as byte] + Octets(n)
  }

  /** A number in as few octets as possible, high-order first. */
  function Octets(n: nat): (s: bytes)
    ensures FromBigEndian(s) == n && (n > 0 ==> |s| > 0)
  {
    if n == 0 then [] else
      var s := Octets(n / 256) + [(n % 256) as byte];
      assert s[..|s| - 1] == Octets(n / 256);
      s
  }

  lemma {:induction false} OctetsUpTo(n: nat, k: nat)
    requires n < Pow256(k)
    ensures |Octets(n)| <= k
  {
    if n > 0 {
      OctetsUpTo(n / 256, k - 1);
    }
  }

  lemma FourOctets(n: nat)
    requires n < LIMIT
    ensures |Octets(n)| <= 4
  {
    assert Pow256(4) == 256 * Pow256(3) == 256 * (256 * Pow256(2)) == 256 * (256 * (256 * Pow256(1)));
    OctetsUpTo(n, 4);
  }

  function Encode(tag: byte, content: bytes): (s: bytes)
    ensures |s| > |content|
  {
    [tag] + EncodeLength(|content|) + content
  }

  lemma ReadsLong(tag: byte, octets: bytes, rest: bytes)
    requires 0 < |octets| <= 4 && FromBigEndian(octets) <= |rest|
    ensures ReadTlv([tag, (0x80 + |octets|) as byte] + octets + rest) == Some(Tlv(2 + |octets|, FromBigEndian(octets)))
  {
    var data := [tag, (0x80 + |octets|) as byte] + octets + rest;
    assert data[2..2 + |octets|] == octets;
  }

  lemma LongForm(tag: byte, n: nat, rest: bytes)
    requires 0x80 <= n < LIMIT
    ensures |Octets(n)| <= 4
    ensures [tag] + EncodeLength(n) + rest == [tag, (0x80 + |Octets(n)|) as byte] + Octets(n) + rest
  {
    FourOctets(n);
  }

  lemma ShortForm(tag: byte, n: nat, rest: bytes)
    requires n < 0x80 && n <= |rest|
    ensures ReadTlv([tag, n as byte] + rest) == Some(Tlv(2, n))
  {
  }

  /** The two forms of the length, with whatever follows them. */
  lemma ReadsLength(tag: byte, n: nat, rest: bytes)
    requires n < LIMIT && n <= |rest|
    ensures ReadTlv([tag] + EncodeLength(n) + rest) == Some(Tlv(1 + |EncodeLength(n)|, n))
  {
    if n >= 0x80 {
      LongForm(tag, n, rest);
      ReadsLong(tag, Octets(n), rest);
    } else {
      assert [tag] + EncodeLength(n) + rest == [tag, n as byte] + rest;
      ShortForm(tag, n, rest);
    }
  }

  /** ReadTlv finds what was encoded, whatever follows. */
  lemma ReadsEncoded(tag: byte, content: bytes, rest: bytes)
    requires |content| < LIMIT
    ensures var data := Encode(tag, content) + rest;
            var r := ReadTlv(data);
            r.Some? && data[0] == tag && r.value.Content(data) == content && r.value.After(data) == rest
  {
    var data := Encode(tag, content) + rest;
    var length := EncodeLength(|content|);
    assert data == [tag] + length + (content + rest);
    ReadsLength(tag, |content|, content + rest);
    SlicesOf([tag] + length, content, rest);
  }

  /** Refused are the indefinite form, more than four length octets, and lengths that are cut off or lead
      beyond the data; everything else is read. */
  lemma RefusedExactly(data: bytes)
    ensures ReadTlv(data).None? <==>
              || |data| < 2
              || (data[1] < 128 && |data| < 2 + data[1] as nat)
              || data[1] == 128 || data[1] > 132
              || (data[1] > 128 && |data| < data[1] as nat - 126)
              || (data[1] > 128 && |data| < data[1] as nat - 126 + FromBigEndian(data[2..data[1] as nat - 126]))
  {
  }

  lemma SlicesOf(a: bytes, b: bytes, c: bytes)
    ensures (a + b + c)[|a|..|a| + |b|] == b && (a + b + c)[|a| + |b|..] == c
  {
  }

  // ---------------------------------------------------------------- extraction inverts encoding

  datatype Item = Item(tag: byte, content: bytes)

  function EncodeItems(items: seq<Item>): bytes {
    if items == [] then [] else Encode(items[0].tag, items[0].content) + EncodeItems(items[1..])
  }

  /** The contents of the items with that tag, in order. */
  function Tagged(items: seq<Item>, tag: byte): seq<bytes> {
    if items == [] then []
    else (if items[0].tag == tag then [items[0].content] else []) + Tagged(items[1..], tag)
  }

  /** The dNSName and iPAddress entries. */
  function Presented(names: seq<Item>): Names {
    Names(Tagged(names, 0x82), Tagged(names, 0x87))
  }

  datatype Extension = Extension(oid: bytes, critical: Option<byte>, value: bytes)

  function EncodeCritical(critical: Option<byte>): bytes {
    if critical.Some? then Encode(0x01, [critical.value]) else []
  }

  function ExtensionContent(e: Extension): bytes {
    Encode(0x06, e.oid) + (EncodeCritical(e.critical) + Encode(0x04, e.value))
  }

  function EncodeExtensions(es: seq<Extension>): bytes {
    if es == [] then [] else Encode(0x30, ExtensionContent(es[0])) + EncodeExtensions(es[1..])
  }

  /** A certificate with a subjectAltName: the fields in front of [3], the extensions in front of the
      subjectAltName, the octet of its critical BOOLEAN if there is one, the names, and what is behind. */
  datatype Certificate = Certificate(fields: seq<Item>, earlier: seq<Extension>, critical: Option<byte>, names: seq<Item>,
                                     later: bytes, tail: bytes, signature: bytes, trailing: bytes)

  predicate WellFormed(c: Certificate) {
    && (forall i :: 0 <= i < |c.fields| ==> c.fields[i].tag != 0xA3)
    && (forall i :: 0 <= i < |c.earlier| ==> !(SubjectAltName() <= c.earlier[i].oid))
  }

  /** The identifier 2.5.29.17 of section 4.2.1.6 of RFC 5280, in the form of section 8.19 of X.690. */
  function SubjectAltName(): bytes {
    [40 * 2 + 5, 29, 17]
  }

  function San(c: Certificate): Extension {
    Extension(SubjectAltName(), c.critical, Encode(0x30, EncodeItems(c.names)))
  }

  function ExtensionsOf(c: Certificate): bytes {
    EncodeExtensions(c.earlier) + (Encode(0x30, ExtensionContent(San(c))) + c.later)
  }

  function TbsOf(c: Certificate): bytes {
    EncodeItems(c.fields) + (Encode(0xA3, Encode(0x30, ExtensionsOf(c))) + c.tail)
  }

  function EncodeCertificate(c: Certificate): bytes {
    Encode(0x30, Encode(0x30, TbsOf(c)) + c.signature) + c.trailing
  }

  lemma ReadsEncodedAlone(tag: byte, content: bytes)
    requires |content| < LIMIT
    ensures var data := Encode(tag, content);
            var r := ReadTlv(data);
            r.Some? && data[0] == tag && r.value.Content(data) == content && r.value.After(data) == []
  {
    ReadsEncoded(tag, content, []);
    assert Encode(tag, content) + [] == Encode(tag, content);
  }

  lemma {:induction false} ReadsNames(names: seq<Item>)
    requires |EncodeItems(names)| < LIMIT
    ensures NamesIn(EncodeItems(names)) == Presented(names)
  {
    if names != [] {
      ReadsEncoded(names[0].tag, names[0].content, EncodeItems(names[1..]));
      ReadsNames(names[1..]);
    }
  }

  lemma ReadsGeneralNames(names: seq<Item>)
    requires |EncodeItems(names)| < LIMIT
    ensures GeneralNames(Encode(0x30, EncodeItems(names))) == Presented(names)
  {
    ReadsEncodedAlone(0x30, EncodeItems(names));
    ReadsNames(names);
  }

  /** The critical BOOLEAN is skipped only if its content is 1: what is tested is the content, not the tag. */
  lemma ReadsSanValue(critical: Option<byte>, names: seq<Item>, stray: byte)
    requires |Encode(0x30, EncodeItems(names))| < LIMIT
    ensures SanValue(EncodeCritical(critical) + Encode(0x04, Encode(0x30, EncodeItems(names))), stray) ==
            if critical.None? || critical.value == 0x01 then Some(Presented(names)) else None
  {
    var value := Encode(0x30, EncodeItems(names));
    ReadsEncodedAlone(0x04, value);
    ReadsGeneralNames(names);
    if critical.None? {
      assert EncodeCritical(critical) + Encode(0x04, value) == Encode(0x04, value);
      FirstOfContent(0x04, value);
    } else {
      ReadsEncoded(0x01, [critical.value], Encode(0x04, value));
    }
  }

  lemma FirstOfContent(tag: byte, content: bytes)
    requires 0 < |content| < LIMIT
    ensures var data := Encode(tag, content);
            var r := ReadTlv(data);
            r.Some? && r.value.size > 0 && data[r.value.header] == content[0]
  {
    ReadsEncodedAlone(tag, content);
    var data := Encode(tag, content);
    var tlv := ReadTlv(data).value;
    assert tlv.Content(data)[0] == data[tlv.header];
  }

  lemma ReadsExtension(e: Extension)
    requires |ExtensionContent(e)| < LIMIT
    ensures var inner := ExtensionContent(e);
            var r := ReadTlv(inner);
            r.Some? && r.value.Content(inner) == e.oid && r.value.After(inner) == EncodeCritical(e.critical) + Encode(0x04, e.value)
  {
    ReadsEncoded(0x06, e.oid, EncodeCritical(e.critical) + Encode(0x04, e.value));
  }

  /** Extensions whose identifier does not begin with that of subjectAltName are passed over. */
  lemma {:induction false} SkipsExtensions(es: seq<Extension>, rest: bytes, stray: byte)
    requires |EncodeExtensions(es)| < LIMIT
    requires forall i :: 0 <= i < |es| ==> !(SubjectAltName() <= es[i].oid)
    ensures SanExtension(EncodeExtensions(es) + rest, stray) == SanExtension(rest, stray)
  {
    if es == [] {
      assert EncodeExtensions(es) + rest == rest;
    } else {
      var content, others := ExtensionContent(es[0]), EncodeExtensions(es[1..]) + rest;
      assert EncodeExtensions(es) + rest == Encode(0x30, content) + others;
      ReadsEncoded(0x30, content, others);
      ReadsExtension(es[0]);
      SkipsExtensions(es[1..], rest, stray);
    }
  }

  lemma FindsSan(c: Certificate, stray: byte)
    requires WellFormed(c) && |ExtensionsOf(c)| < LIMIT
    ensures SanExtension(ExtensionsOf(c), stray) ==
            if c.critical.None? || c.critical.value == 0x01 then Some(Presented(c.names)) else None
  {
    var san := San(c);
    SkipsExtensions(c.earlier, Encode(0x30, ExtensionContent(san)) + c.later, stray);
    ReadsEncoded(0x30, ExtensionContent(san), c.later);
    ReadsExtension(san);
    ReadsSanValue(c.critical, c.names, stray);
  }

  lemma {:induction false} SkipsFields(fields: seq<Item>, rest: bytes, stray: byte)
    requires |EncodeItems(fields)| < LIMIT
    requires forall i :: 0 <= i < |fields| ==> fields[i].tag != 0xA3
    ensures TbsNames(EncodeItems(fields) + rest, stray) == TbsNames(rest, stray)
  {
    if fields == [] {
      assert EncodeItems(fields) + rest == rest;
    } else {
      var others := EncodeItems(fields[1..]) + rest;
      assert EncodeItems(fields) + rest == Encode(fields[0].tag, fields[0].content) + others;
      ReadsEncoded(fields[0].tag, fields[0].content, others);
      SkipsFields(fields[1..], rest, stray);
    }
  }

  lemma FindsExtensions(c: Certificate, stray: byte)
    requires WellFormed(c) && |TbsOf(c)| < LIMIT
    ensures TbsNames(TbsOf(c), stray) == SanExtension(ExtensionsOf(c), stray)
  {
    var wrapped := Encode(0x30, ExtensionsOf(c));
    SkipsFields(c.fields, Encode(0xA3, wrapped) + c.tail, stray);
    ReadsEncoded(0xA3, wrapped, c.tail);
    ReadsEncodedAlone(0x30, ExtensionsOf(c));
  }

  /** ReadAltNames undoes the encoding of a certificate with a subjectAltName: exactly the dNSName and
      iPAddress entries come out, in order, if and only if the extension has no critical BOOLEAN or one whose
      octet is 1. DER writes TRUE as 0xFF, so a critical subjectAltName is never found. */
  lemma ExtractionInvertsEncoding(c: Certificate, stray: byte)
    requires WellFormed(c) && |EncodeCertificate(c)| < LIMIT
    ensures AltNames(EncodeCertificate(c), stray) ==
            if c.critical.None? || c.critical.value == 0x01 then Some(Presented(c.names)) else None
  {
    var tbs := Encode(0x30, TbsOf(c));
    ReadsEncoded(0x30, tbs + c.signature, c.trailing);
    ReadsEncoded(0x30, TbsOf(c), c.signature);
    FindsExtensions(c, stray);
    FindsSan(c, stray);
  }

  /** A DER certificate whose subjectAltName is critical, with the single name "a": nothing is found. */
  lemma CriticalSanIsLost()
    ensures var c := Certificate([], [], Some(0xFF), [Item(0x82, [0x61])], [], [], [], []);
            AltNames(EncodeCertificate(c), 0) == None && Presented(c.names).dns == [[0x61]]
  {
    var c := Certificate([], [], Some(0xFF), [Item(0x82, [0x61])], [], [], [], []);
    SmallCertificate(c);
    ExtractionInvertsEncoding(c, 0);
    assert Tagged(c.names, 0x82) == [[0x61]] + Tagged([], 0x82);
  }

  lemma SmallCertificate(c: Certificate)
    requires c == Certificate([], [], Some(0xFF), [Item(0x82, [0x61])], [], [], [], [])
    ensures |EncodeCertificate(c)| < LIMIT
  {
    assert EncodeItems(c.names) == Encode(0x82, [0x61]) + EncodeItems([]);
    assert |EncodeItems(c.names)| == 3;
    assert |San(c).value| == 5;
    assert |ExtensionContent(San(c))| == 15;
    assert |ExtensionsOf(c)| == 17;
    assert |TbsOf(c)| == 21;
    assert |Encode(0x30, TbsOf(c))| == 23;
  }

  /** Without a subjectAltName nothing is found. */
  lemma NoSanNoNames(fields: seq<Item>, es: seq<Extension>, tail: bytes, stray: byte)
    requires |EncodeItems(fields)| < LIMIT && forall i :: 0 <= i < |fields| ==> fields[i].tag != 0xA3
    requires |Encode(0x30, EncodeExtensions(es))| < LIMIT && forall i :: 0 <= i < |es| ==> !(SubjectAltName() <= es[i].oid)
    ensures TbsNames(EncodeItems(fields), stray) == None
    ensures TbsNames(EncodeItems(fields) + (Encode(0xA3, Encode(0x30, EncodeExtensions(es))) + tail), stray) == None
  {
    SkipsFields(fields, [], stray);
    assert EncodeItems(fields) + [] == EncodeItems(fields);
    var wrapped := Encode(0x30, EncodeExtensions(es));
    SkipsFields(fields, Encode(0xA3, wrapped) + tail, stray);
    ReadsEncoded(0xA3, wrapped, tail);
    ReadsEncodedAlone(0x30, EncodeExtensions(es));
    SkipsExtensions(es, [], stray);
    assert EncodeExtensions(es) + [] == EncodeExtensions(es);
  }

  /** IsOid being a prefix test, an extension whose identifier only begins with 2.5.29.17 is read as one. */
  lemma LongerOidIsTaken(oid: bytes, names: seq<Item>, later: bytes, stray: byte)
    requires SubjectAltName() <= oid
    requires var e := Extension(oid, None, Encode(0x30, EncodeItems(names))); |ExtensionContent(e)| < LIMIT
    ensures var e := Extension(oid, None, Encode(0x30, EncodeItems(names)));
            SanExtension(Encode(0x30, ExtensionContent(e)) + later, stray) == Some(Presented(names))
  {
    var e := Extension(oid, None, Encode(0x30, EncodeItems(names)));
    ReadsEncoded(0x30, ExtensionContent(e), later);
    ReadsExtension(e);
    ReadsSanValue(None, names, stray);
  }

  // ---------------------------------------------------------------- MatchesWildcard

  /** A wide character; comparing two of them looks at the low octet only. */
  type wide = x: nat | x < 0x1_0000

  const DOT: wide := 0x2E
  const STAR: wide := 0x2A

  function Fold(c: wide): nat {
    var low := c % 256;
    if 0x41 <= low <= 0x5A then low + 0x20 else low
  }

  predicate SameFolded(left: seq<wide>, right: seq<wide>) {
    |left| == |right| && forall i :: 0 <= i < |left| ==> Fold(left[i]) == Fold(right[i])
  }

  /** Characters of ASCII are the same but for the case of a letter. */
  lemma FoldedExactly(c: wide, d: wide)
    requires c < 128 && d < 128
    ensures Fold(c) == Fold(d) <==>
              || c == d
              || ('A' as nat <= c <= 'Z' as nat && d == c + 32)
              || ('A' as nat <= d <= 'Z' as nat && c == d + 32)
  {
  }

  method AsciiEqualsInsensitive(left: seq<wide>, right: seq<wide>) returns (r: bool)
    ensures r <==> SameFolded(left, right)
  {
    if |left| != |right| {
      return false;
    }
    for index := 0 to |left|
      invariant forall i :: 0 <= i < index ==> Fold(left[i]) == Fold(right[i])
    {
      if Fold(left[index]) != Fold(right[index]) {
        return false;
      }
    }
    return true;
  }

  /** The pattern is "*." and more; the host is one left-most label, without '.' or '*', and then what the
      pattern has behind its star, but for case and high octets. */
  predicate Covers(host: seq<wide>, pattern: seq<wide>, first: seq<wide>, tail: seq<wide>) {
    && |pattern| >= 3 && pattern[0] == '*' as nat && pattern[1] == '.' as nat
    && host == first + tail && SameFolded(tail, pattern[1..]) && '.' as nat in tail
    && first != [] && '.' as nat !in first && '*' as nat !in first
  }

  method MatchesWildcard(host: seq<wide>, pattern: seq<wide>) returns (r: bool)
    ensures r <==> exists first: seq<wide>, tail: seq<wide> :: Covers(host, pattern, first, tail)
  {
    if |pattern| < 3 || pattern[0] != STAR || pattern[1] != DOT {
      return false;
    }
    var suffix := pattern[1..];
    if |host| <= |suffix| {
      return false;
    }
    OneSplit(host, pattern);
    if DOT !in host {
      return false;
    }
    var same := AsciiEqualsInsensitive(host[|host| - |suffix|..], suffix);
    if !same {
      return false;
    }
    var first := host[..|host| - |suffix|];
    if first == [] || STAR in first {
      return false;
    }
    return DOT !in first;
  }

  /** The place of the split is fixed by the lengths. */
  lemma OneSplit(host: seq<wide>, pattern: seq<wide>)
    requires |pattern| >= 3 && pattern[0] == STAR && pattern[1] == DOT && |host| >= |pattern|
    ensures var n := |host| - |pattern| + 1;
            (exists first: seq<wide>, tail: seq<wide> :: Covers(host, pattern, first, tail)) <==>
            DOT in host && SameFolded(host[n..], pattern[1..]) && DOT !in host[..n] && STAR !in host[..n]
  {
    var n := |host| - |pattern| + 1;
    assert host == host[..n] + host[n..];
    if DOT in host && SameFolded(host[n..], pattern[1..]) && DOT !in host[..n] && STAR !in host[..n] {
      assert Covers(host, pattern, host[..n], host[n..]);
    }
    forall first: seq<wide>, tail: seq<wide> | Covers(host, pattern, first, tail)
      ensures first == host[..n] && tail == host[n..]
    {
    }
  }

  /** Among ASCII names that is one label, a dot, and the pattern's domain. */
  lemma OneLabel(host: seq<wide>, pattern: seq<wide>, first: seq<wide>, tail: seq<wide>)
    requires Covers(host, pattern, first, tail) && forall i :: 0 <= i < |host| ==> host[i] < 0x80
    ensures host == first + ['.' as nat] + tail[1..] && SameFolded(tail[1..], pattern[2..])
  {
    assert tail[0] == host[|first|];
    assert Fold(tail[0]) == Fold(pattern[1..][0]);
    forall i | 0 <= i < |tail[1..]| ensures Fold(tail[1..][i]) == Fold(pattern[2..][i]) {
      assert tail[1..][i] == tail[i + 1] && pattern[2..][i] == pattern[1..][i + 1];
    }
  }
}
