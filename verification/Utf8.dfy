/** utf8_validator: a packed state machine, proved to accept exactly the language of RFC 3629 section 4. */
module Utf8 {
  import opened Wrappers

  const UTF8_ACCEPT: nat := 0
  const UTF8_REJECT: nat := 1

  /** utf8d in rows of sixteen: the class of each byte, then the successor of each state for each class. */
  const UTF8D: seq<seq<nat>> := [
    [0, 0, 0, 0, 0, 0, 0, 0, 0, 0, 0, 0, 0, 0, 0, 0],  // 00..0f
    [0, 0, 0, 0, 0, 0, 0, 0, 0, 0, 0, 0, 0, 0, 0, 0],  // 10..1f
    [0, 0, 0, 0, 0, 0, 0, 0, 0, 0, 0, 0, 0, 0, 0, 0],  // 20..2f
    [0, 0, 0, 0, 0, 0, 0, 0, 0, 0, 0, 0, 0, 0, 0, 0],  // 30..3f
    [0, 0, 0, 0, 0, 0, 0, 0, 0, 0, 0, 0, 0, 0, 0, 0],  // 40..4f
    [0, 0, 0, 0, 0, 0, 0, 0, 0, 0, 0, 0, 0, 0, 0, 0],  // 50..5f
    [0, 0, 0, 0, 0, 0, 0, 0, 0, 0, 0, 0, 0, 0, 0, 0],  // 60..6f
    [0, 0, 0, 0, 0, 0, 0, 0, 0, 0, 0, 0, 0, 0, 0, 0],  // 70..7f
    [1, 1, 1, 1, 1, 1, 1, 1, 1, 1, 1, 1, 1, 1, 1, 1],  // 80..8f
    [9, 9, 9, 9, 9, 9, 9, 9, 9, 9, 9, 9, 9, 9, 9, 9],  // 90..9f
    [7, 7, 7, 7, 7, 7, 7, 7, 7, 7, 7, 7, 7, 7, 7, 7],  // a0..af
    [7, 7, 7, 7, 7, 7, 7, 7, 7, 7, 7, 7, 7, 7, 7, 7],  // b0..bf
    [8, 8, 2, 2, 2, 2, 2, 2, 2, 2, 2, 2, 2, 2, 2, 2],  // c0..cf
    [2, 2, 2, 2, 2, 2, 2, 2, 2, 2, 2, 2, 2, 2, 2, 2],  // d0..df
    [10, 3, 3, 3, 3, 3, 3, 3, 3, 3, 3, 3, 3, 4, 3, 3],  // e0..ef
    [11, 6, 6, 6, 5, 8, 8, 8, 8, 8, 8, 8, 8, 8, 8, 8],  // f0..ff
    [0, 1, 2, 3, 5, 8, 7, 1, 1, 1, 4, 6, 1, 1, 1, 1],  // s0
    [1, 1, 1, 1, 1, 1, 1, 1, 1, 1, 1, 1, 1, 1, 1, 1],  // s1
    [1, 0, 1, 1, 1, 1, 1, 0, 1, 0, 1, 1, 1, 1, 1, 1],  // s2
    [1, 2, 1, 1, 1, 1, 1, 2, 1, 2, 1, 1, 1, 1, 1, 1],  // s3
    [1, 1, 1, 1, 1, 1, 1, 2, 1, 1, 1, 1, 1, 1, 1, 1],  // s4
    [1, 2, 1, 1, 1, 1, 1, 1, 1, 2, 1, 1, 1, 1, 1, 1],  // s5
    [1, 1, 1, 1, 1, 1, 1, 3, 1, 3, 1, 1, 1, 1, 1, 1],  // s6
    [1, 3, 1, 1, 1, 1, 1, 3, 1, 3, 1, 1, 1, 1, 1, 1],  // s7
    [1, 3, 1, 1, 1, 1, 1, 1, 1, 1, 1, 1, 1, 1, 1, 1]]  // s8

  function Utf8d(i: nat): nat
    requires i < 400
  {
    UTF8D[i / 16][i % 16]
  }

  /** What the first 256 entries say, as ranges. */
  function Class(b: byte): (c: nat)
    ensures c < 12
  {
    if b < 0x80 then 0
    else if b < 0x90 then 1
    else if b < 0xA0 then 9
    else if b < 0xC0 then 7
    else if b < 0xC2 then 8
    else if b < 0xE0 then 2
    else if b == 0xE0 then 10
    else if b == 0xED then 4
    else if b < 0xF0 then 3
    else if b == 0xF0 then 11
    else if b < 0xF4 then 6
    else if b == 0xF4 then 5
    else 8
  }

  lemma TableClass(b: byte)
    ensures Utf8d(b as nat) == Class(b)
  {
  }

  /** What the successor rows say, as ranges of the byte. */
  function Successor(state: nat, b: byte): (next: nat)
    requires state < 9
    ensures next < 9
  {
    match state
    case 0 =>
      if b < 0x80 then 0 else if b < 0xC2 then 1 else if b < 0xE0 then 2 else if b == 0xE0 then 4
      else if b == 0xED then 5 else if b < 0xF0 then 3 else if b == 0xF0 then 6 else if b < 0xF4 then 7
      else if b == 0xF4 then 8 else 1
    case 2 => if Tail(b) then 0 else 1
    case 3 => if Tail(b) then 2 else 1
    case 4 => if 0xA0 <= b <= 0xBF then 2 else 1
    case 5 => if 0x80 <= b <= 0x9F then 2 else 1
    case 6 => if 0x90 <= b <= 0xBF then 3 else 1
    case 7 => if Tail(b) then 3 else 1
    case 8 => if 0x80 <= b <= 0x8F then 3 else 1
    case _ => 1
  }

  predicate Tail(b: byte) {
    0x80 <= b <= 0xBF
  }

  /** The successor rows by class. */
  function ClassSuccessor(state: nat, c: nat): nat {
    match state
    case 0 => if c == 0 then 0 else if c == 2 then 2 else if c == 3 then 3 else if c == 4 then 5 else if c == 5 then 8
              else if c == 6 then 7 else if c == 10 then 4 else if c == 11 then 6 else 1
    case 2 => if c in {1, 7, 9} then 0 else 1
    case 3 => if c in {1, 7, 9} then 2 else 1
    case 4 => if c == 7 then 2 else 1
    case 5 => if c in {1, 9} then 2 else 1
    case 6 => if c in {7, 9} then 3 else 1
    case 7 => if c in {1, 7, 9} then 3 else 1
    case 8 => if c == 1 then 3 else 1
    case _ => 1
  }

  lemma RowSuccessor(state: nat, c: nat)
    requires state < 9 && c < 12
    ensures UTF8D[16 + state][c] == ClassSuccessor(state, c)
  {
  }

  lemma TableSuccessor(state: nat, b: byte)
    requires state < 9
    ensures 256 + state * 16 + Utf8d(b as nat) < 400
    ensures Utf8d(256 + state * 16 + Utf8d(b as nat)) == Successor(state, b)
  {
    TableClass(b);
    RowSuccessor(state, Class(b));
    SplitIndex(state, Class(b));
  }

  lemma SplitIndex(state: nat, c: nat)
    requires c < 16
    ensures (256 + state * 16 + c) / 16 == 16 + state && (256 + state * 16 + c) % 16 == c
  {
  }

  /** 0xff >> type as a mask leaves the low bits; the shift loses everything from type 8 on. */
  function LeadBits(b: byte, class_: nat): nat {
    match class_
    case 0 => b as nat
    case 2 => b as nat % 64
    case 3 => b as nat % 32
    case 4 => b as nat % 16
    case 5 => b as nat % 8
    case 6 => b as nat % 4
    case 1 => b as nat % 128
    case 7 => b as nat % 2
    case _ => 0
  }

  /** The effect of decode on *codep; the or of a shifted value and six low bits is their sum. */
  function NextCodepoint(state: nat, codepoint: nat, b: byte): nat {
    if state != UTF8_ACCEPT then (codepoint * 64 + b as nat % 64) % 0x1_0000_0000
    else LeadBits(b, Class(b))
  }

  function Run(state: nat, s: bytes): (end: nat)
    requires state < 9
    ensures end < 9
    decreases |s|
  {
    if s == [] then state else Run(Successor(state, s[0]), s[1..])
  }

  /** The values of m_codepoint each time the machine returns to the accept state. */
  function Points(state: nat, codepoint: nat, s: bytes): seq<nat>
    requires state < 9
    decreases |s|
  {
    if s == [] then []
    else
      var next, point := Successor(state, s[0]), NextCodepoint(state, codepoint, s[0]);
      (if next == UTF8_ACCEPT then [point] else []) + Points(next, point, s[1..])
  }

  /** m_codepoint after s. */
  function Codepoint(state: nat, codepoint: nat, s: bytes): nat
    requires state < 9
    decreases |s|
  {
    if s == [] then codepoint else Codepoint(Successor(state, s[0]), NextCodepoint(state, codepoint, s[0]), s[1..])
  }

  // ---------------------------------------------------------------- the methods of the source

  /** decode on one byte. */
  method DecodeByte(state: nat, codepoint: nat, b: byte) returns (state': nat, codepoint': nat)
    requires state < 9
    ensures state' == Successor(state, b) && codepoint' == NextCodepoint(state, codepoint, b)
  {
    TableClass(b);
    TableSuccessor(state, b);
    var class_ := Utf8d(b as nat);
    codepoint' := if state != UTF8_ACCEPT then (b as nat % 64 + codepoint * 64) % 0x1_0000_0000 else LeadBits(b, class_);
    state' := Utf8d(256 + state * 16 + class_);
  }

  class Validator {
    var state: nat
    var codepoint: nat

    constructor ()
      ensures state == UTF8_ACCEPT && codepoint == 0
    {
      state, codepoint := UTF8_ACCEPT, 0;
    }

    method Consume(b: byte) returns (ok: bool)
      requires state < 9
      modifies this
      ensures state == Successor(old(state), b) && codepoint == NextCodepoint(old(state), old(codepoint), b)
      ensures ok == (state != UTF8_REJECT)
    {
      state, codepoint := DecodeByte(state, codepoint, b);
      ok := state != UTF8_REJECT;
    }

    /** Stops at the first rejected byte; the state is then what running over all of s would give. */
    method Decode(s: bytes) returns (ok: bool)
      requires state < 9
      modifies this
      ensures state == Run(old(state), s)
      ensures ok == (s == [] || state != UTF8_REJECT)
      ensures ok ==> codepoint == Codepoint(old(state), old(codepoint), s)
    {
      for i := 0 to |s|
        invariant state < 9 && Run(state, s[i..]) == Run(old(state), s)
        invariant Codepoint(state, codepoint, s[i..]) == Codepoint(old(state), old(codepoint), s)
        invariant i > 0 ==> state != UTF8_REJECT
      {
        state, codepoint := DecodeByte(state, codepoint, s[i]);
        assert s[i..][1..] == s[i + 1..];
        if state == UTF8_REJECT {
          RejectStays(s[i + 1..]);
          return false;
        }
      }
      return true;
    }

    method Complete() returns (ok: bool)
      ensures ok == (state == UTF8_ACCEPT)
    {
      ok := state == UTF8_ACCEPT;
    }

    method Reset()
      modifies this
      ensures state == UTF8_ACCEPT && codepoint == 0
    {
      state, codepoint := UTF8_ACCEPT, 0;
    }
  }

  /** validate is true exactly on well-formed UTF-8. */
  method Validate(s: bytes) returns (ok: bool)
    ensures ok <==> WellFormed(s)
  {
    var v := new Validator();
    ok := v.Decode(s);
    AcceptsExactlyWellFormed(s);
    if ok {
      ok := v.Complete();
    }
  }

  lemma {:induction false} RejectStays(s: bytes)
    ensures Run(UTF8_REJECT, s) == UTF8_REJECT
  {
    if s != [] {
      RejectStays(s[1..]);
    }
  }

  // ---------------------------------------------------------------- RFC 3629 section 4

  /** UTF8-char of the grammar. */
  predicate IsChar(s: bytes) {
    || (|s| == 1 && s[0] <= 0x7F)
    || (|s| == 2 && 0xC2 <= s[0] <= 0xDF && Tail(s[1]))
    || (|s| == 3 && Tail(s[2]) &&
          (|| (s[0] == 0xE0 && 0xA0 <= s[1] <= 0xBF)
           || (0xE1 <= s[0] <= 0xEC && Tail(s[1]))
           || (s[0] == 0xED && 0x80 <= s[1] <= 0x9F)
           || (0xEE <= s[0] <= 0xEF && Tail(s[1]))))
    || (|s| == 4 && Tail(s[2]) && Tail(s[3]) &&
          (|| (s[0] == 0xF0 && 0x90 <= s[1] <= 0xBF)
           || (0xF1 <= s[0] <= 0xF3 && Tail(s[1]))
           || (s[0] == 0xF4 && 0x80 <= s[1] <= 0x8F)))
  }

  /** UTF8-octets of the grammar: any number of UTF8-char. */
  ghost predicate WellFormed(s: bytes)
    decreases |s|
  {
    s == [] || exists k: nat :: 1 <= k <= 4 && k <= |s| && IsChar(s[..k]) && WellFormed(s[k..])
  }

  predicate IsScalar(v: nat) {
    v <= 0x10FFFF && !(0xD800 <= v <= 0xDFFF)
  }

  /** RFC 3629 section 3: six bits to a trailing byte, the low ones last. */
  function Encode(v: nat): (s: bytes)
    requires IsScalar(v)
  {
    var q := v / 64;
    var r := q / 64;
    if v < 0x80 then [v as byte]
    else if v < 0x800 then [(0xC0 + q) as byte, (0x80 + v % 64) as byte]
    else if v < 0x10000 then [(0xE0 + r) as byte, (0x80 + q % 64) as byte, (0x80 + v % 64) as byte]
    else [(0xF0 + r / 64) as byte, (0x80 + r % 64) as byte, (0x80 + q % 64) as byte, (0x80 + v % 64) as byte]
  }

  function EncodeAll(vs: seq<nat>): bytes
    requires forall v :: v in vs ==> IsScalar(v)
  {
    if vs == [] then [] else Encode(vs[0]) + EncodeAll(vs[1..])
  }

  /** The number a character encodes. */
  function Scalar(s: bytes): nat
    requires IsChar(s)
  {
    match |s|
    case 1 => s[0] as nat
    case 2 => Join(s[0] as nat - 0xC0, s[1])
    case 3 => Join(Join(s[0] as nat - 0xE0, s[1]), s[2])
    case _ => Join(Join(Join(s[0] as nat - 0xF0, s[1]), s[2]), s[3])
  }

  /** Six more bits from a trailing byte. */
  function Join(high: nat, b: byte): nat
    requires Tail(b)
  {
    high * 64 + (b as nat - 0x80)
  }

  lemma JoinSplits(high: nat, b: byte)
    requires Tail(b)
    ensures Join(high, b) / 64 == high && Join(high, b) % 64 == b as nat - 0x80
  {
  }

  lemma CharEncodesScalar(s: bytes)
    requires IsChar(s)
    ensures IsScalar(Scalar(s)) && Encode(Scalar(s)) == s
  {
    match |s|
    case 1 =>
    case 2 => JoinSplits(s[0] as nat - 0xC0, s[1]);
    case 3 =>
      JoinSplits(s[0] as nat - 0xE0, s[1]);
      JoinSplits(Join(s[0] as nat - 0xE0, s[1]), s[2]);
    case _ =>
      JoinSplits(s[0] as nat - 0xF0, s[1]);
      JoinSplits(Join(s[0] as nat - 0xF0, s[1]), s[2]);
      JoinSplits(Join(Join(s[0] as nat - 0xF0, s[1]), s[2]), s[3]);
  }

  lemma EncodeIsChar(v: nat)
    requires IsScalar(v)
    ensures IsChar(Encode(v)) && Scalar(Encode(v)) == v
  {
  }

  // ---------------------------------------------------------------- what each state is waiting for

  /** The strings that take a state to accept: the rest of a character and then whole characters. */
  ghost predicate Residual(state: nat, s: bytes)
    requires state < 9
  {
    match state
    case 0 => WellFormed(s)
    case 1 => false
    case 2 => |s| >= 1 && Tail(s[0]) && WellFormed(s[1..])
    case 3 => |s| >= 2 && Tail(s[0]) && Tail(s[1]) && WellFormed(s[2..])
    case 4 => |s| >= 2 && 0xA0 <= s[0] <= 0xBF && Tail(s[1]) && WellFormed(s[2..])
    case 5 => |s| >= 2 && 0x80 <= s[0] <= 0x9F && Tail(s[1]) && WellFormed(s[2..])
    case 6 => |s| >= 3 && 0x90 <= s[0] <= 0xBF && Tail(s[1]) && Tail(s[2]) && WellFormed(s[3..])
    case 7 => |s| >= 3 && Tail(s[0]) && Tail(s[1]) && Tail(s[2]) && WellFormed(s[3..])
    case 8 => |s| >= 3 && 0x80 <= s[0] <= 0x8F && Tail(s[1]) && Tail(s[2]) && WellFormed(s[3..])
  }

  lemma ResidualOfAccept(s: bytes)
    requires s != []
    ensures WellFormed(s) <==> Residual(Successor(0, s[0]), s[1..])
  {
    var next := Successor(0, s[0]);
    var k := match next case 0 => 1 case 1 => 5 case 2 => 2 case 3 => 3 case 4 => 3 case 5 => 3 case _ => 4;
    if WellFormed(s) {
      var n: nat :| 1 <= n <= 4 && n <= |s| && IsChar(s[..n]) && WellFormed(s[n..]);
      assert n == k;
      assert s[1..][k - 1..] == s[k..];
    }
    if Residual(next, s[1..]) {
      assert s[1..][k - 1..] == s[k..];
      assert IsChar(s[..k]);
    }
  }

  lemma ResidualStep(state: nat, s: bytes)
    requires state < 9 && s != []
    ensures Residual(state, s) <==> Residual(Successor(state, s[0]), s[1..])
  {
    if state == 0 {
      ResidualOfAccept(s);
    } else {
      assert forall n :: 1 <= n <= |s| ==> s[1..][n - 1..] == s[n..];
    }
  }

  lemma {:induction false} RunMeetsResidual(state: nat, s: bytes)
    requires state < 9
    ensures Run(state, s) == UTF8_ACCEPT <==> Residual(state, s)
    decreases |s|
  {
    if s != [] {
      ResidualStep(state, s);
      RunMeetsResidual(Successor(state, s[0]), s[1..]);
    }
  }

  // ---------------------------------------------------------------- main results

  /** The machine accepts exactly the grammar. */
  lemma AcceptsExactlyWellFormed(s: bytes)
    ensures Run(UTF8_ACCEPT, s) == UTF8_ACCEPT <==> WellFormed(s)
  {
    RunMeetsResidual(UTF8_ACCEPT, s);
  }

  lemma {:induction false} RunConcat(state: nat, s: bytes, t: bytes)
    requires state < 9
    ensures Run(state, s + t) == Run(Run(state, s), t)
    decreases |s|
  {
    if s == [] {
      assert s + t == t;
    } else {
      assert (s + t)[1..] == s[1..] + t;
      RunConcat(Successor(state, s[0]), s[1..], t);
    }
  }

  function RunPieces(state: nat, pieces: seq<bytes>): (end: nat)
    requires state < 9
    ensures end < 9
    decreases |pieces|
  {
    if pieces == [] then state else RunPieces(Run(state, pieces[0]), pieces[1..])
  }

  /** Streaming: any way of splitting the input gives the verdict of the whole. */
  lemma {:induction false} SplitsAgree(state: nat, pieces: seq<bytes>)
    requires state < 9
    ensures RunPieces(state, pieces) == Run(state, Concat(pieces))
    decreases |pieces|
  {
    if pieces != [] {
      ConcatFromFront(pieces);
      RunConcat(state, pieces[0], Concat(pieces[1..]));
      SplitsAgree(Run(state, pieces[0]), pieces[1..]);
    }
  }

  lemma PointsCons(state: nat, codepoint: nat, b: byte, rest: bytes)
    requires state < 9
    ensures var next, point := Successor(state, b), NextCodepoint(state, codepoint, b);
            Points(state, codepoint, [b] + rest) == (if next == UTF8_ACCEPT then [point] else []) + Points(next, point, rest)
  {
    assert ([b] + rest)[1..] == rest;
  }

  /** A trailing byte adds its six bits to a code point that still fits. */
  lemma TailCodepoint(state: nat, codepoint: nat, b: byte)
    requires state != UTF8_ACCEPT && Tail(b) && codepoint < 0x400_0000
    ensures NextCodepoint(state, codepoint, b) == Join(codepoint, b)
  {
  }

  /** The last byte of a character. */
  lemma LastByte(codepoint: nat, b: byte, rest: bytes)
    requires Tail(b) && codepoint < 0x400_0000
    ensures Points(2, codepoint, [b] + rest) == [Join(codepoint, b)] + Points(0, Join(codepoint, b), rest)
  {
    TailCodepoint(2, codepoint, b);
    PointsCons(2, codepoint, b, rest);
  }

  lemma LastTwoBytes(state: nat, codepoint: nat, b: byte, c: byte, rest: bytes)
    requires 2 <= state < 9 && Successor(state, b) == 2 && Tail(b) && Tail(c) && codepoint < 0x10_0000
    ensures var v := Join(Join(codepoint, b), c);
            Points(state, codepoint, [b] + ([c] + rest)) == [v] + Points(0, v, rest)
  {
    TailCodepoint(state, codepoint, b);
    PointsCons(state, codepoint, b, [c] + rest);
    LastByte(Join(codepoint, b), c, rest);
  }

  lemma LastThreeBytes(state: nat, codepoint: nat, b: byte, c: byte, d: byte, rest: bytes)
    requires 2 <= state < 9 && Successor(state, b) == 3 && Tail(b) && Tail(c) && Tail(d) && codepoint < 0x4000
    ensures var v := Join(Join(Join(codepoint, b), c), d);
            Points(state, codepoint, [b] + ([c] + ([d] + rest))) == [v] + Points(0, v, rest)
  {
    TailCodepoint(state, codepoint, b);
    PointsCons(state, codepoint, b, [c] + ([d] + rest));
    LastTwoBytes(3, Join(codepoint, b), c, d, rest);
  }

  /** The lead byte announces the length and contributes its low bits. */
  lemma LeadByte(codepoint: nat, s: bytes)
    requires IsChar(s) && |s| >= 2
    ensures var p, q := NextCodepoint(0, codepoint, s[0]), Successor(0, s[0]);
            && (|s| == 2 ==> p == s[0] as nat - 0xC0 && q == 2)
            && (|s| == 3 ==> p == s[0] as nat - 0xE0 && q in {3, 4, 5} && Successor(q, s[1]) == 2)
            && (|s| == 4 ==> p == s[0] as nat - 0xF0 && q in {6, 7, 8} && Successor(q, s[1]) == 3)
  {
  }

  /** One character takes accept to accept and leaves its scalar value in m_codepoint. */
  lemma CharPoint(codepoint: nat, s: bytes, rest: bytes)
    requires IsChar(s)
    ensures Points(0, codepoint, s + rest) == [Scalar(s)] + Points(0, Scalar(s), rest)
  {
    if |s| == 1 {
      assert s + rest == [s[0]] + rest;
      PointsCons(0, codepoint, s[0], rest);
    } else {
      LongCharPoint(codepoint, s, s[1..] + rest, rest);
      assert s + rest == [s[0]] + (s[1..] + rest);
    }
  }

  lemma LongCharPoint(codepoint: nat, s: bytes, more: bytes, rest: bytes)
    requires IsChar(s) && |s| >= 2 && more == s[1..] + rest
    ensures Points(0, codepoint, [s[0]] + more) == [Scalar(s)] + Points(0, Scalar(s), rest)
  {
    var p, q := NextCodepoint(0, codepoint, s[0]), Successor(0, s[0]);
    LeadByte(codepoint, s);
    PointsCons(0, codepoint, s[0], more);
    if |s| == 2 {
      assert more == [s[1]] + rest;
      LastByte(p, s[1], rest);
    } else if |s| == 3 {
      assert more == [s[1]] + ([s[2]] + rest);
      LastTwoBytes(q, p, s[1], s[2], rest);
    } else {
      assert more == [s[1]] + ([s[2]] + ([s[3]] + rest));
      LastThreeBytes(q, p, s[1], s[2], s[3], rest);
    }
  }

  /** At every return to accept m_codepoint is the point just reported. */
  lemma {:induction false} CodepointIsLastPoint(state: nat, codepoint: nat, s: bytes)
    requires state < 9 && s != [] && Run(state, s) == UTF8_ACCEPT
    ensures var vs := Points(state, codepoint, s); vs != [] && vs[|vs| - 1] == Codepoint(state, codepoint, s)
    decreases |s|
  {
    if |s| > 1 {
      CodepointIsLastPoint(Successor(state, s[0]), NextCodepoint(state, codepoint, s[0]), s[1..]);
    } else {
      assert s[1..] == [];
    }
  }

  /**
   The code points reported on the way are the decoding: a well-formed string is the encoding of the
   scalar values that m_codepoint takes at the returns to accept.
   */
  lemma {:induction false} PointsDecode(codepoint: nat, s: bytes)
    requires WellFormed(s)
    ensures var vs := Points(0, codepoint, s);
            (forall v :: v in vs ==> IsScalar(v)) && EncodeAll(vs) == s
    decreases |s|
  {
    if s != [] {
      var k: nat :| 1 <= k <= 4 && k <= |s| && IsChar(s[..k]) && WellFormed(s[k..]);
      var c := s[..k];
      assert c + s[k..] == s;
      CharPoint(codepoint, c, s[k..]);
      CharEncodesScalar(c);
      PointsDecode(Scalar(c), s[k..]);
    }
  }

  /** ... and every sequence of scalar values is encoded by a well-formed string, which decodes to it. */
  lemma {:induction false} EncodingsAreWellFormed(vs: seq<nat>, codepoint: nat)
    requires forall v :: v in vs ==> IsScalar(v)
    ensures WellFormed(EncodeAll(vs))
    ensures Points(0, codepoint, EncodeAll(vs)) == vs
    decreases |vs|
  {
    if vs != [] {
      var c, rest := Encode(vs[0]), EncodeAll(vs[1..]);
      EncodeIsChar(vs[0]);
      EncodingsAreWellFormed(vs[1..], Scalar(c));
      var s, k := EncodeAll(vs), |c|;
      assert s[..k] == c && s[k..] == rest;
      CharPoint(codepoint, c, rest);
    }
  }
}
