/**
 The variable-length frame header of websocketpp::frame (RFC 6455 section 5.2).

 Header octets are numbers: a mask with one bit is a power of two, so that testing it is a division,
 and or-ing values that share no bit is an addition.
 */
module FrameHeader {
  import opened Wrappers

  const PAYLOAD_SIZE_BASIC := 125
  const PAYLOAD_SIZE_EXTENDED := 0xFFFF
  const SIZE_LIMIT := 0x1_0000_0000_0000_0000
  const PAYLOAD_SIZE_CODE_16BIT: byte := 0x7E
  const PAYLOAD_SIZE_CODE_64BIT: byte := 0x7F
  const BASIC_HEADER_LENGTH: nat := 2
  const MAX_EXTENDED_HEADER_LENGTH: nat := 12

  /** A payload size: a uint64_t. */
  type size64 = x: nat | x < SIZE_LIMIT

  datatype BasicHeader = BasicHeader(b0: byte, b1: byte)

  /** extended_header: always twelve octets, of which the basic header says how many count. */
  type ExtendedHeader = s: bytes | |s| == MAX_EXTENDED_HEADER_LENGTH witness [0, 0, 0, 0, 0, 0, 0, 0, 0, 0, 0, 0]

  // ---------------------------------------------------------------- getters and setters

  /** (b & mask) == mask, for a mask of one bit: that bit leads what is left below the next one. */
  predicate Flag(b: byte, mask: byte)
    requires mask in {0x80, 0x40, 0x20, 0x10}
  {
    if mask == 0x80 then b >= 0x80
    else if mask == 0x40 then b % 0x80 >= 0x40
    else if mask == 0x20 then b % 0x40 >= 0x20
    else b % 0x20 >= 0x10
  }

  /** b | mask, or b & ~mask. */
  function WithFlag(b: byte, mask: byte, value: bool): (r: byte)
    requires mask in {0x80, 0x40, 0x20, 0x10}
  {
    if Flag(b, mask) == value then b
    else if value then (b as int + mask as int) as byte
    else b - mask
  }

  /** The fields a basic header carries. */
  datatype Fields = Fields(fin: bool, rsv1: bool, rsv2: bool, rsv3: bool, opcode: byte, masked: bool, basicSize: byte)

  function GetFin(h: BasicHeader): bool { Flag(h.b0, 0x80) }

  function GetRsv1(h: BasicHeader): bool { Flag(h.b0, 0x40) }

  function GetRsv2(h: BasicHeader): bool { Flag(h.b0, 0x20) }

  function GetRsv3(h: BasicHeader): bool { Flag(h.b0, 0x10) }

  function GetOpcode(h: BasicHeader): byte { h.b0 % 16 }

  function GetMasked(h: BasicHeader): bool { Flag(h.b1, 0x80) }

  function GetBasicSize(h: BasicHeader): byte { h.b1 % 128 }

  function FieldsOf(h: BasicHeader): Fields {
    Fields(GetFin(h), GetRsv1(h), GetRsv2(h), GetRsv3(h), GetOpcode(h), GetMasked(h), GetBasicSize(h))
  }

  /** A first octet, put together from its flags and its low four bits. */
  function Octet(fin: bool, rsv1: bool, rsv2: bool, rsv3: bool, low: byte): byte
    requires low < 16
  {
    (if fin then 0x80 else 0) + (if rsv1 then 0x40 else 0) + (if rsv2 then 0x20 else 0) + (if rsv3 then 0x10 else 0) + low
  }

  /** The flags and the low bits read back from a first octet. */
  lemma OctetRoundTrip(fin: bool, rsv1: bool, rsv2: bool, rsv3: bool, low: byte)
    requires low < 16
    ensures var b := Octet(fin, rsv1, rsv2, rsv3, low);
            && Flag(b, 0x80) == fin && Flag(b, 0x40) == rsv1 && Flag(b, 0x20) == rsv2 && Flag(b, 0x10) == rsv3
            && b % 16 == low
  {
    var b := Octet(fin, rsv1, rsv2, rsv3, low);
    assert b % 0x80 == Octet(false, rsv1, rsv2, rsv3, low);
    assert b % 0x40 == Octet(false, false, rsv2, rsv3, low);
    assert b % 0x20 == Octet(false, false, false, rsv3, low);
  }

  /** ... and every first octet is put together from what is read from it. */
  lemma OctetIsItsFlags(b: byte)
    ensures b == Octet(Flag(b, 0x80), Flag(b, 0x40), Flag(b, 0x20), Flag(b, 0x10), b % 16)
  {
    var b7 := if b >= 0x80 then b - 0x80 else b;
    var b6 := if b7 >= 0x40 then b7 - 0x40 else b7;
    var b5 := if b6 >= 0x20 then b6 - 0x20 else b6;
    assert b % 0x80 == b7;
    assert b % 0x40 == b6;
    assert b % 0x20 == b5;
    assert b % 16 == if b5 >= 0x10 then b5 - 0x10 else b5;
  }

  /** A setter of a flag in the first octet changes that flag and nothing else. */
  lemma WithFlagSetsOne(b: byte, v: bool)
    ensures var l := b % 16; var f, r1, r2, r3 := Flag(b, 0x80), Flag(b, 0x40), Flag(b, 0x20), Flag(b, 0x10);
            && WithFlag(b, 0x80, v) == Octet(v, r1, r2, r3, l) && WithFlag(b, 0x40, v) == Octet(f, v, r2, r3, l)
            && WithFlag(b, 0x20, v) == Octet(f, r1, v, r3, l) && WithFlag(b, 0x10, v) == Octet(f, r1, r2, v, l)
  {
    OctetIsItsFlags(b);
  }

  function WithFin(h: BasicHeader, v: bool): BasicHeader { h.(b0 := WithFlag(h.b0, 0x80, v)) }

  function WithRsv1(h: BasicHeader, v: bool): BasicHeader { h.(b0 := WithFlag(h.b0, 0x40, v)) }

  function WithRsv2(h: BasicHeader, v: bool): BasicHeader { h.(b0 := WithFlag(h.b0, 0x20, v)) }

  function WithRsv3(h: BasicHeader, v: bool): BasicHeader { h.(b0 := WithFlag(h.b0, 0x10, v)) }

  function WithMasked(h: BasicHeader, v: bool): BasicHeader { h.(b1 := WithFlag(h.b1, 0x80, v)) }

  lemma OctetFields(b1: byte, fin: bool, rsv1: bool, rsv2: bool, rsv3: bool, low: byte)
    requires low < 16
    ensures FieldsOf(BasicHeader(Octet(fin, rsv1, rsv2, rsv3, low), b1))
         == Fields(fin, rsv1, rsv2, rsv3, low, Flag(b1, 0x80), b1 % 128)
  {
    OctetRoundTrip(fin, rsv1, rsv2, rsv3, low);
  }

  lemma FinIsSet(h: BasicHeader, v: bool)
    ensures FieldsOf(WithFin(h, v)) == FieldsOf(h).(fin := v)
  {
    var g := FieldsOf(h);
    WithFlagSetsOne(h.b0, v);
    OctetFields(h.b1, v, g.rsv1, g.rsv2, g.rsv3, g.opcode);
  }

  lemma Rsv1IsSet(h: BasicHeader, v: bool)
    ensures FieldsOf(WithRsv1(h, v)) == FieldsOf(h).(rsv1 := v)
  {
    var g := FieldsOf(h);
    WithFlagSetsOne(h.b0, v);
    OctetFields(h.b1, g.fin, v, g.rsv2, g.rsv3, g.opcode);
  }

  lemma Rsv2IsSet(h: BasicHeader, v: bool)
    ensures FieldsOf(WithRsv2(h, v)) == FieldsOf(h).(rsv2 := v)
  {
    var g := FieldsOf(h);
    WithFlagSetsOne(h.b0, v);
    OctetFields(h.b1, g.fin, g.rsv1, v, g.rsv3, g.opcode);
  }

  lemma Rsv3IsSet(h: BasicHeader, v: bool)
    ensures FieldsOf(WithRsv3(h, v)) == FieldsOf(h).(rsv3 := v)
  {
    var g := FieldsOf(h);
    WithFlagSetsOne(h.b0, v);
    OctetFields(h.b1, g.fin, g.rsv1, g.rsv2, v, g.opcode);
  }

  lemma MaskedIsSet(h: BasicHeader, v: bool)
    ensures FieldsOf(WithMasked(h, v)) == FieldsOf(h).(masked := v)
  {
  }

  /** A setter changes its own field and no other. */
  lemma SettersSetOneField(h: BasicHeader, v: bool)
    ensures FieldsOf(WithFin(h, v)) == FieldsOf(h).(fin := v)
    ensures FieldsOf(WithRsv1(h, v)) == FieldsOf(h).(rsv1 := v)
    ensures FieldsOf(WithRsv2(h, v)) == FieldsOf(h).(rsv2 := v)
    ensures FieldsOf(WithRsv3(h, v)) == FieldsOf(h).(rsv3 := v)
    ensures FieldsOf(WithMasked(h, v)) == FieldsOf(h).(masked := v)
  {
    FinIsSet(h, v);
    Rsv1IsSet(h, v);
    Rsv2IsSet(h, v);
    Rsv3IsSet(h, v);
    MaskedIsSet(h, v);
  }

  /** The getters together determine both octets. */
  lemma FieldsDetermineHeader(g: BasicHeader, h: BasicHeader)
    requires FieldsOf(g) == FieldsOf(h)
    ensures g == h
  {
    OctetIsItsFlags(g.b0);
    OctetIsItsFlags(h.b0);
  }

  // ---------------------------------------------------------------- building a header

  function BasicValue(size: size64): byte {
    if size <= PAYLOAD_SIZE_BASIC then size as byte
    else if size <= PAYLOAD_SIZE_EXTENDED then PAYLOAD_SIZE_CODE_16BIT
    else PAYLOAD_SIZE_CODE_64BIT
  }

  /** basic_header(op, size, fin, mask, rsv1, rsv2, rsv3): every value added has its own bits. */
  function MakeBasic(op: byte, size: size64, fin: bool, mask: bool, rsv1: bool, rsv2: bool, rsv3: bool): BasicHeader {
    var b0: byte := if fin then 0x80 else 0x00;
    var b0 := if rsv1 then b0 + 0x40 else b0;
    var b0 := if rsv2 then b0 + 0x20 else b0;
    var b0 := if rsv3 then b0 + 0x10 else b0;
    var b1: byte := if mask then 0x80 else 0x00;
    BasicHeader(b0 + op % 16, b1 + BasicValue(size))
  }

  /** The low n octets of a number, the most significant first: what _htonll leaves in memory, or its end. */
  function BigEndian(v: nat, n: nat): (r: bytes)
    ensures |r| == n
  {
    if n == 0 then [] else BigEndian(v / 256, n - 1) + [(v % 256) as byte]
  }

  lemma {:induction false} BigEndianRoundTrip(v: nat, n: nat)
    requires v < Pow256(n)
    ensures FromBigEndian(BigEndian(v, n)) == v
  {
    if n > 0 {
      BigEndianRoundTrip(v / 256, n - 1);
      var r := BigEndian(v, n);
      assert r[..n - 1] == BigEndian(v / 256, n - 1);
    }
  }

  /** How many octets of the size follow the basic header. */
  function SizeOctets(size: size64): nat {
    if size <= PAYLOAD_SIZE_BASIC then 0 else if size <= PAYLOAD_SIZE_EXTENDED then 2 else 8
  }

  /** copy_payload: the last octets of the size in network order. */
  function CopyPayload(size: size64): (r: bytes)
    ensures |r| == SizeOctets(size)
  {
    BigEndian(size, 8)[8 - SizeOctets(size)..]
  }

  function Filled(s: bytes): ExtendedHeader
    requires |s| <= MAX_EXTENDED_HEADER_LENGTH
  {
    s + seq(MAX_EXTENDED_HEADER_LENGTH - |s|, _ => 0)
  }

  /** extended_header(payload_size), or with a masking key of four octets. */
  function MakeExtended(size: size64, key: bytes): ExtendedHeader
    requires |key| == 0 || |key| == 4
  {
    Filled(CopyPayload(size) + key)
  }

  // ---------------------------------------------------------------- the structs, overwritten in place

  /** struct basic_header and its setters. */
  class BasicHeaderStruct {
    var b0: byte
    var b1: byte

    function View(): BasicHeader
      reads this
    {
      BasicHeader(b0, b1)
    }

    constructor (op: byte, size: size64, fin: bool, mask: bool, rsv1: bool, rsv2: bool, rsv3: bool)
      ensures View() == MakeBasic(op, size, fin, mask, rsv1, rsv2, rsv3)
    {
      b0, b1 := 0x00, 0x00;
      new;
      if fin { b0 := 0x80; }
      if rsv1 { b0 := b0 + 0x40; }
      if rsv2 { b0 := b0 + 0x20; }
      if rsv3 { b0 := b0 + 0x10; }
      b0 := b0 + op % 16;
      if mask { b1 := 0x80; }
      if size <= PAYLOAD_SIZE_BASIC {
        b1 := b1 + size as byte;
      } else if size <= PAYLOAD_SIZE_EXTENDED {
        b1 := b1 + PAYLOAD_SIZE_CODE_16BIT;
      } else {
        b1 := b1 + PAYLOAD_SIZE_CODE_64BIT;
      }
    }

    method SetFin(value: bool)
      modifies `b0
      ensures FieldsOf(View()) == old(FieldsOf(View())).(fin := value)
    {
      SettersSetOneField(View(), value);
      b0 := WithFlag(b0, 0x80, value);
    }

    method SetRsv1(value: bool)
      modifies `b0
      ensures FieldsOf(View()) == old(FieldsOf(View())).(rsv1 := value)
    {
      SettersSetOneField(View(), value);
      b0 := WithFlag(b0, 0x40, value);
    }

    method SetRsv2(value: bool)
      modifies `b0
      ensures FieldsOf(View()) == old(FieldsOf(View())).(rsv2 := value)
    {
      SettersSetOneField(View(), value);
      b0 := WithFlag(b0, 0x20, value);
    }

    method SetRsv3(value: bool)
      modifies `b0
      ensures FieldsOf(View()) == old(FieldsOf(View())).(rsv3 := value)
    {
      SettersSetOneField(View(), value);
      b0 := WithFlag(b0, 0x10, value);
    }

    method SetMasked(value: bool)
      modifies `b1
      ensures FieldsOf(View()) == old(FieldsOf(View())).(masked := value)
    {
      SettersSetOneField(View(), value);
      b1 := WithFlag(b1, 0x80, value);
    }
  }

  /** struct extended_header: the size and then the key are copied into twelve zeroed octets. */
  class ExtendedHeaderStruct {
    const octets: array<byte>

    constructor (size: size64, key: bytes)
      requires |key| == 0 || |key| == 4
      ensures fresh(octets) && octets[..] == MakeExtended(size, key)
    {
      octets := new byte[MAX_EXTENDED_HEADER_LENGTH](_ => 0);
      new;
      ghost var zeros := octets[..];
      var offset := Copy(size);
      assert octets[offset..] == zeros[offset..];
      ghost var tail := seq(MAX_EXTENDED_HEADER_LENGTH - offset - |key|, _ => 0 as byte);
      assert octets[offset + |key|..] == tail;
      forall i | 0 <= i < |key| { octets[offset + i] := key[i]; }
      assert octets[offset..offset + |key|] == key && octets[offset + |key|..] == tail;
      assert octets[..] == octets[..offset] + octets[offset..offset + |key|] + octets[offset + |key|..];
    }

    /** copy_payload: the end of the size in network order. */
    method Copy(size: size64) returns (offset: nat)
      requires octets.Length == MAX_EXTENDED_HEADER_LENGTH
      modifies octets
      ensures offset == SizeOctets(size) && octets[..offset] == CopyPayload(size)
      ensures octets[offset..] == old(octets[offset..])
    {
      var payloadOffset := 0;
      if size <= PAYLOAD_SIZE_BASIC {
        payloadOffset := 8;
      } else if size <= PAYLOAD_SIZE_EXTENDED {
        payloadOffset := 6;
      }
      var network := BigEndian(size, 8);
      forall i | 0 <= i < 8 - payloadOffset { octets[i] := network[payloadOffset + i]; }
      offset := 8 - payloadOffset;
    }
  }

  // ---------------------------------------------------------------- reading a header

  function GetMaskingKeyOffset(h: BasicHeader): nat {
    if GetBasicSize(h) == PAYLOAD_SIZE_CODE_16BIT then 2
    else if GetBasicSize(h) == PAYLOAD_SIZE_CODE_64BIT then 8
    else 0
  }

  function GetHeaderLen(h: BasicHeader): (n: nat)
    ensures BASIC_HEADER_LENGTH <= n <= 14
  {
    BASIC_HEADER_LENGTH + GetMaskingKeyOffset(h) + if GetMasked(h) then 4 else 0
  }

  function PrepareHeader(h: BasicHeader, e: ExtendedHeader): (r: bytes)
    ensures |r| == GetHeaderLen(h)
  {
    [h.b0, h.b1] + e[..GetHeaderLen(h) - BASIC_HEADER_LENGTH]
  }

  /** The key as its octets; four zeros when the frame is not masked. */
  function GetMaskingKey(h: BasicHeader, e: ExtendedHeader): (key: bytes)
    ensures |key| == 4
  {
    if !GetMasked(h) then [0, 0, 0, 0]
    else e[GetMaskingKeyOffset(h)..GetMaskingKeyOffset(h) + 4]
  }

  function GetPayloadSize(h: BasicHeader, e: ExtendedHeader): nat {
    var val := GetBasicSize(h);
    if val as nat <= PAYLOAD_SIZE_BASIC then val as nat
    else if val == PAYLOAD_SIZE_CODE_16BIT then FromBigEndian(e[..2])
    else FromBigEndian(e[..8])
  }

  // ---------------------------------------------------------------- round trips

  /** The basic header reads back to what it was built from. */
  lemma BasicRoundTrip(op: byte, size: size64, fin: bool, mask: bool, rsv1: bool, rsv2: bool, rsv3: bool)
    requires op < 16
    ensures FieldsOf(MakeBasic(op, size, fin, mask, rsv1, rsv2, rsv3))
         == Fields(fin, rsv1, rsv2, rsv3, op, mask, BasicValue(size))
  {
    OctetRoundTrip(fin, rsv1, rsv2, rsv3, op);
    assert MakeBasic(op, size, fin, mask, rsv1, rsv2, rsv3).b0 == Octet(fin, rsv1, rsv2, rsv3, op);
  }

  lemma {:induction false} BigEndianTail(v: nat, n: nat, k: nat)
    requires k <= n
    ensures BigEndian(v, n)[n - k..] == BigEndian(v, k)
  {
    if k > 0 {
      BigEndianTail(v / 256, n - 1, k - 1);
    }
  }

  /** The size field reads back whatever the form, with nothing assumed about the octets after it. */
  lemma SizeRoundTrip(h: BasicHeader, size: size64, rest: bytes)
    requires GetBasicSize(h) == BasicValue(size) && |CopyPayload(size)| + |rest| == MAX_EXTENDED_HEADER_LENGTH
    ensures GetPayloadSize(h, CopyPayload(size) + rest) == size
    ensures GetMaskingKeyOffset(h) == |CopyPayload(size)|
  {
    var c, n := CopyPayload(size), SizeOctets(size);
    assert (c + rest)[..n] == c;
    if n > 0 {
      BigEndianTail(size, 8, n);
      assert Pow256(2) == 0x1_0000 && Pow256(8) == SIZE_LIMIT;
      BigEndianRoundTrip(size, n);
    }
  }

  // ---------------------------------------------------------------- whole frames on the wire

  datatype Frame = Frame(opcode: byte, fin: bool, rsv1: bool, rsv2: bool, rsv3: bool, key: Option<bytes>, payload: bytes)

  /** The opcode fits its four bits, a key has four octets, and the payload length a uint64_t. */
  predicate ValidFrame(f: Frame) {
    && f.opcode < 16
    && (f.key.Some? ==> |f.key.value| == 4)
    && |f.payload| < SIZE_LIMIT
  }

  function KeyOctets(f: Frame): bytes {
    if f.key.Some? then f.key.value else []
  }

  function BasicOf(f: Frame): BasicHeader
    requires ValidFrame(f)
  {
    MakeBasic(f.opcode, |f.payload|, f.fin, f.key.Some?, f.rsv1, f.rsv2, f.rsv3)
  }

  function Written(f: Frame): bytes
    requires ValidFrame(f)
  {
    PrepareHeader(BasicOf(f), MakeExtended(|f.payload|, KeyOctets(f))) + f.payload
  }

  /** Reads one frame off the front of a stream: the basic header says how long the rest is. */
  function ReadFrame(s: bytes): Option<(Frame, bytes)> {
    if |s| < BASIC_HEADER_LENGTH then None else
    var h := BasicHeader(s[0], s[1]);
    var n := GetHeaderLen(h);
    if |s| < n then None else
    var e := Filled(s[BASIC_HEADER_LENGTH..n]);
    var end := n + GetPayloadSize(h, e);
    if |s| < end then None else
    var key := if GetMasked(h) then Some(GetMaskingKey(h, e)) else None;
    Some((Frame(GetOpcode(h), GetFin(h), GetRsv1(h), GetRsv2(h), GetRsv3(h), key, s[n..end]), s[end..]))
  }

  /** How long the header is: the shortest form RFC 6455 allows for the size, plus the key. */
  lemma HeaderIsMinimal(f: Frame)
    requires ValidFrame(f)
    ensures GetHeaderLen(BasicOf(f))
         == 2 + (if |f.payload| <= 125 then 0 else if |f.payload| <= 0xFFFF then 2 else 8) + if f.key.Some? then 4 else 0
  {
    BasicRoundTrip(f.opcode, |f.payload|, f.fin, f.key.Some?, f.rsv1, f.rsv2, f.rsv3);
  }

  /** The octets that prepare_header takes from the extended header are the size and the key. */
  lemma PreparedOctets(f: Frame)
    requires ValidFrame(f)
    ensures PrepareHeader(BasicOf(f), MakeExtended(|f.payload|, KeyOctets(f)))
         == [BasicOf(f).b0, BasicOf(f).b1] + (CopyPayload(|f.payload|) + KeyOctets(f))
  {
    HeaderIsMinimal(f);
    var body := CopyPayload(|f.payload|) + KeyOctets(f);
    assert Filled(body)[..|body|] == body;
  }

  lemma MiddleSlice<T>(a: seq<T>, b: seq<T>, c: seq<T>)
    ensures (a + b) + c == a + (b + c)
    ensures ((a + b) + c)[|a|..|a| + |b|] == b
  {
  }

  /** Size and key read back from the octets between the basic header and the payload. */
  lemma ExtendedRoundTrip(f: Frame)
    requires ValidFrame(f)
    ensures var e := Filled(CopyPayload(|f.payload|) + KeyOctets(f));
            && GetPayloadSize(BasicOf(f), e) == |f.payload|
            && GetMaskingKey(BasicOf(f), e) == (if f.key.Some? then f.key.value else [0, 0, 0, 0])
  {
    var size, key := CopyPayload(|f.payload|), KeyOctets(f);
    var zeros := seq(MAX_EXTENDED_HEADER_LENGTH - |size + key|, _ => 0 as byte);
    MiddleSlice(size, key, zeros);
    BasicRoundTrip(f.opcode, |f.payload|, f.fin, f.key.Some?, f.rsv1, f.rsv2, f.rsv3);
    SizeRoundTrip(BasicOf(f), |f.payload|, key + zeros);
  }

  lemma WireLayout<T>(s: seq<T>, a: seq<T>, b: seq<T>, c: seq<T>, d: seq<T>)
    requires s == (a + b) + c + d && |a| == 2
    ensures var n := |a| + |b|;
            && s[0] == a[0] && s[1] == a[1] && s[2..n] == b && s[n..n + |c|] == c && s[n + |c|..] == d
  {
  }

  /** Reading what was written gives the frame back and leaves the rest of the stream. */
  lemma FrameRoundTrip(f: Frame, rest: bytes)
    requires ValidFrame(f)
    ensures ReadFrame(Written(f) + rest) == Some((f, rest))
  {
    var h, body, s := BasicOf(f), CopyPayload(|f.payload|) + KeyOctets(f), Written(f) + rest;
    PreparedOctets(f);
    HeaderIsMinimal(f);
    WireLayout(s, [h.b0, h.b1], body, f.payload, rest);
    ExtendedRoundTrip(f);
    BasicRoundTrip(f.opcode, |f.payload|, f.fin, f.key.Some?, f.rsv1, f.rsv2, f.rsv3);
  }

  // ---------------------------------------------------------------- the octets of section 5.2 of RFC 6455

  lemma PrefixValue(s: bytes, k: nat)
    requires k < |s|
    ensures FromBigEndian(s[..k + 1]) == 256 * FromBigEndian(s[..k]) + s[k] as nat
  {
    assert s[..k + 1][..k] == s[..k];
  }

  lemma TwoOctets(s: bytes)
    requires |s| == 2
    ensures FromBigEndian(s) == 256 * s[0] as nat + s[1] as nat
  {
    PrefixValue(s, 0);
    PrefixValue(s, 1);
    assert s[..2] == s;
  }

  /** The number that eight octets write, spelled out. */
  function EightOctets(s: bytes): nat
    requires |s| == 8
  {
    0x100_0000_0000_0000 * s[0] as nat + 0x1_0000_0000_0000 * s[1] as nat + 0x100_0000_0000 * s[2] as nat +
    0x1_0000_0000 * s[3] as nat + 0x100_0000 * s[4] as nat + 0x1_0000 * s[5] as nat + 0x100 * s[6] as nat + s[7] as nat
  }

  lemma FirstFour(s: bytes)
    requires |s| >= 4
    ensures FromBigEndian(s[..4]) == 0x100_0000 * s[0] as nat + 0x1_0000 * s[1] as nat + 0x100 * s[2] as nat + s[3] as nat
  {
    PrefixValue(s, 0);
    PrefixValue(s, 1);
    PrefixValue(s, 2);
    PrefixValue(s, 3);
  }

  lemma EightOctetsValue(s: bytes)
    requires |s| == 8
    ensures FromBigEndian(s) == EightOctets(s)
  {
    FirstFour(s);
    PrefixValue(s, 4);
    PrefixValue(s, 5);
    PrefixValue(s, 6);
    PrefixValue(s, 7);
    assert s[..8] == s;
  }

  /** The size octets: none, two or eight, the most significant first. */
  predicate SizeOnTheWire(n: nat, s: bytes) {
    if n <= 125 then s == []
    else if n <= 65535 then |s| == 2 && n == 256 * s[0] as nat + s[1] as nat
    else |s| == 8 && n == EightOctets(s)
  }

  lemma CopiedSize(n: size64)
    ensures SizeOnTheWire(n, CopyPayload(n))
  {
    var k := SizeOctets(n);
    BigEndianTail(n, 8, k);
    assert Pow256(2) == 0x1_0000 && Pow256(8) == SIZE_LIMIT;
    if k > 0 {
      BigEndianRoundTrip(n, k);
      if k == 2 {
        TwoOctets(CopyPayload(n));
      } else {
        EightOctetsValue(CopyPayload(n));
      }
    }
  }

  /** Flags and opcode in the first octet, mask bit and length code in the second. */
  lemma BasicOctets(op: byte, n: size64, fin: bool, mask: bool, rsv1: bool, rsv2: bool, rsv3: bool)
    requires op < 16
    ensures var h := MakeBasic(op, n, fin, mask, rsv1, rsv2, rsv3);
            && h.b0 as int == (if fin then 128 else 0) + (if rsv1 then 64 else 0) + (if rsv2 then 32 else 0) +
                              (if rsv3 then 16 else 0) + op as int
            && h.b1 as int == (if mask then 128 else 0) + (if n <= 125 then n else if n <= 65535 then 126 else 127)
  {
  }

  /** What prepare_header and the payload put on the wire, octet by octet. */
  lemma FrameOnTheWire(f: Frame)
    requires ValidFrame(f)
    ensures var s, n := Written(f), |f.payload|;
            var sizeEnd := if n <= 125 then 2 else if n <= 65535 then 4 else 10;
            var headerEnd := sizeEnd + if f.key.Some? then 4 else 0;
            && |s| == headerEnd + n
            && s[0] as int == (if f.fin then 128 else 0) + (if f.rsv1 then 64 else 0) + (if f.rsv2 then 32 else 0) +
                              (if f.rsv3 then 16 else 0) + f.opcode as int
            && s[1] as int == (if f.key.Some? then 128 else 0) + (if n <= 125 then n else if n <= 65535 then 126 else 127)
            && SizeOnTheWire(n, s[2..sizeEnd])
            && (f.key.Some? ==> s[sizeEnd..headerEnd] == f.key.value)
            && s[headerEnd..] == f.payload
  {
    var h, size, key := BasicOf(f), CopyPayload(|f.payload|), KeyOctets(f);
    PreparedOctets(f);
    CopiedSize(|f.payload|);
    BasicOctets(f.opcode, |f.payload|, f.fin, f.key.Some?, f.rsv1, f.rsv2, f.rsv3);
    FourParts(Written(f), [h.b0, h.b1], size, key, f.payload);
  }

  lemma FourParts<T>(s: seq<T>, a: seq<T>, b: seq<T>, c: seq<T>, d: seq<T>)
    requires s == a + (b + c) + d && |a| == 2
    ensures s[0] == a[0] && s[1] == a[1] && s[2..2 + |b|] == b && s[2 + |b|..2 + |b| + |c|] == c && s[2 + |b| + |c|..] == d
  {
  }

  // ---------------------------------------------------------------- streams of frames

  /** Reads items off the front of a stream until it is empty. */
  function ReadAll<T, F>(read: seq<T> -> Option<(F, seq<T>)>, s: seq<T>): Option<seq<F>>
    decreases |s|
  {
    if |s| == 0 then Some([]) else
    match read(s)
    case None => None
    case Some((f, rest)) =>
      if |rest| >= |s| then None else
      match ReadAll(read, rest)
      case None => None
      case Some(fs) => Some([f] + fs)
  }

  lemma {:induction false} ReadAllInvertsConcat<T, F>(read: seq<T> -> Option<(F, seq<T>)>, parts: seq<seq<T>>, fs: seq<F>)
    requires |parts| == |fs|
    requires forall i :: 0 <= i < |fs| ==> |parts[i]| > 0
    requires forall i, rest :: 0 <= i < |fs| ==> read(parts[i] + rest) == Some((fs[i], rest))
    ensures ReadAll(read, Concat(parts)) == Some(fs)
    decreases |fs|
  {
    if fs != [] {
      var rest := Concat(parts[1..]);
      ConcatFromFront(parts);
      forall i, more | 0 <= i < |fs| - 1 ensures read(parts[1..][i] + more) == Some((fs[1..][i], more)) {
        assert read(parts[i + 1] + more) == Some((fs[i + 1], more));
      }
      ReadAllInvertsConcat(read, parts[1..], fs[1..]);
      assert fs == [fs[0]] + fs[1..];
    }
  }

  /** Any concatenation of frames splits back into exactly those frames. */
  lemma StreamSplitsUniquely(fs: seq<Frame>)
    requires forall i :: 0 <= i < |fs| ==> ValidFrame(fs[i])
    ensures ReadAll(ReadFrame, Concat(seq(|fs|, i requires 0 <= i < |fs| => Written(fs[i])))) == Some(fs)
  {
    var parts := seq(|fs|, i requires 0 <= i < |fs| => Written(fs[i]));
    forall i, rest | 0 <= i < |fs| ensures ReadFrame(parts[i] + rest) == Some((fs[i], rest)) {
      FrameRoundTrip(fs[i], rest);
    }
    ReadAllInvertsConcat(ReadFrame, parts, fs);
  }
}
