/** The two base64 codecs, misc/base64.cpp and websocketpp/base64/base64.hpp (sections 4 and 5 of RFC 4648). */
module Base64 {
  import opened Wrappers

  // ---------------------------------------------------------------- digits

  type Digit = d: nat | d < 64

  /** The two alphabets, which differ in their last two characters. */
  function CharOf(d: Digit, url: bool): char {
    if d < 26 then ('A' as int + d) as char
    else if d < 52 then ('a' as int + d - 26) as char
    else if d < 62 then ('0' as int + d - 52) as char
    else if d == 62 then (if url then '-' else '+')
    else (if url then '_' else '/')
  }

  /** The tables of both files, in rows of 16. */
  function Alphabet(row: nat, url: bool): string {
    if row == 0 then "ABCDEFGHIJKLMNOP"
    else if row == 1 then "QRSTUVWXYZabcdef"
    else if row == 2 then "ghijklmnopqrstuv"
    else if url then "wxyz0123456789-_"
    else "wxyz0123456789+/"
  }

  lemma AlphabetExactly(d: Digit, url: bool)
    ensures |Alphabet(d / 16, url)| == 16 && CharOf(d, url) == Alphabet(d / 16, url)[d % 16]
  {
    var row, column := d / 16, d % 16;
    AlphabetRow(row, column, url);
    assert d == 16 * row + column;
  }

  lemma AlphabetRow(row: nat, column: nat, url: bool)
    requires row < 4 && column < 16
    ensures |Alphabet(row, url)| == 16 && CharOf(16 * row + column, url) == Alphabet(row, url)[column]
  {
  }

  /** pos_of_char, liberal about the alphabet; None is the exception. */
  function PosOfChar(c: char): Option<Digit> {
    if 'A' <= c <= 'Z' then Some(c as int - 'A' as int)
    else if 'a' <= c <= 'z' then Some(c as int - 'a' as int + 26)
    else if '0' <= c <= '9' then Some(c as int - '0' as int + 52)
    else if c == '+' || c == '-' then Some(62)
    else if c == '/' || c == '_' then Some(63)
    else None
  }

  /** A character is read as a digit just if one of the two alphabets writes that digit so. */
  lemma PosOfCharExactly(c: char, d: Digit)
    ensures PosOfChar(c) == Some(d) <==> c == CharOf(d, false) || c == CharOf(d, true)
  {
  }

  lemma CharsRead(d: Digit, url: bool)
    ensures PosOfChar(CharOf(d, url)) == Some(d) && CharOf(d, url) !in {'=', '.', '\n'}
  {
  }

  /** Three octets a, b, c are four digits: the bits of one in the other's places. */
  function D0(a: byte): Digit { a as nat / 4 }
  function D1(a: byte, b: byte): Digit { a as nat % 4 * 16 + b as nat / 16 }
  function D2(b: byte, c: byte): Digit { b as nat % 16 * 4 + c as nat / 64 }
  function D3(c: byte): Digit { c as nat % 64 }

  function B0(d0: Digit, d1: Digit): byte { (d0 * 4 + d1 / 16) as byte }
  function B1(d1: Digit, d2: Digit): byte { (d1 % 16 * 16 + d2 / 4) as byte }
  function B2(d2: Digit, d3: Digit): byte { (d2 % 4 * 64 + d3) as byte }

  /** The four digits write the same 24-bit number as the three octets. */
  lemma SameNumber(a: byte, b: byte, c: byte)
    ensures 0x4_0000 * D0(a) + 0x1000 * D1(a, b) + 0x40 * D2(b, c) + D3(c) == 0x1_0000 * a as nat + 0x100 * b as nat + c as nat
  {
    var x, y, z := a as nat, b as nat, c as nat;
    assert x == 4 * (x / 4) + x % 4;
    assert y == 16 * (y / 16) + y % 16;
    assert z == 64 * (z / 64) + z % 64;
  }

  lemma OctetsReturn(a: byte, b: byte, c: byte)
    ensures B0(D0(a), D1(a, b)) == a
    ensures B1(D1(a, b), D2(b, c)) == b
    ensures B2(D2(b, c), D3(c)) == c
  {
    FirstReturns(a as nat, b as nat);
    SecondReturns(a as nat, b as nat, c as nat);
    ThirdReturns(b as nat, c as nat);
  }

  lemma FirstReturns(a: nat, b: nat)
    requires a < 256 && b < 256
    ensures a / 4 * 4 + (a % 4 * 16 + b / 16) / 16 == a
  {
    assert (a % 4 * 16 + b / 16) / 16 == a % 4;
  }

  lemma SecondReturns(a: nat, b: nat, c: nat)
    requires a < 256 && b < 256 && c < 256
    ensures (a % 4 * 16 + b / 16) % 16 * 16 + (b % 16 * 4 + c / 64) / 4 == b
  {
    assert (a % 4 * 16 + b / 16) % 16 == b / 16;
    assert (b % 16 * 4 + c / 64) / 4 == b % 16;
  }

  lemma ThirdReturns(b: nat, c: nat)
    requires b < 256 && c < 256
    ensures (b % 16 * 4 + c / 64) % 4 * 64 + c % 64 == c
  {
    assert (b % 16 * 4 + c / 64) % 4 == c / 64;
  }

  // ---------------------------------------------------------------- encoding

  function Pad(url: bool): char { if url then '.' else '=' }

  function Triple(a: byte, b: byte, c: byte, url: bool): string {
    [CharOf(D0(a), url), CharOf(D1(a, b), url), CharOf(D2(b, c), url), CharOf(D3(c), url)]
  }

  /** What is left over at the end; missing octets count as zero. */
  function Tail(s: bytes, url: bool): string
    requires 1 <= |s| <= 2
  {
    if |s| == 1 then [CharOf(D0(s[0]), url), CharOf(D1(s[0], 0), url), Pad(url), Pad(url)]
    else [CharOf(D0(s[0]), url), CharOf(D1(s[0], s[1]), url), CharOf(D2(s[1], 0), url), Pad(url)]
  }

  /** The four characters for the next one, two or three octets. */
  function Group(s: bytes, url: bool): (t: string)
    requires s != []
    ensures |t| == 4
  {
    if |s| < 3 then Tail(s, url) else Triple(s[0], s[1], s[2], url)
  }

  function Behind(s: bytes): (t: bytes)
    ensures |t| == if |s| < 3 then 0 else |s| - 3
  {
    if |s| < 3 then [] else s[3..]
  }

  function Encoded(s: bytes, url: bool): (t: string)
    ensures |t| == (|s| + 2) / 3 * 4
    decreases |s|
  {
    if s == [] then "" else
      FourForThree(|s|);
      Group(s, url) + Encoded(Behind(s), url)
  }

  lemma FourForThree(n: nat)
    requires n > 0
    ensures (n + 2) / 3 * 4 == 4 + ((if n < 3 then 0 else n - 3) + 2) / 3 * 4
  {
  }

  /** Test vectors of section 10 of RFC 4648: f, fo, foo, foob, fooba, foobar. */
  lemma TestVectors()
    ensures Encoded([0x66], false) == "Zg==" && Encoded([0x66], true) == "Zg.."
    ensures Encoded([0x66, 0x6F], false) == "Zm8=" && Encoded([0x66, 0x6F], true) == "Zm8."
    ensures Encoded([0x66, 0x6F, 0x6F], false) == "Zm9v"
    ensures Encoded([0x66, 0x6F, 0x6F, 0x62], false) == "Zm9vYg=="
    ensures Encoded([0x66, 0x6F, 0x6F, 0x62, 0x61], false) == "Zm9vYmE="
    ensures Encoded([0x66, 0x6F, 0x6F, 0x62, 0x61, 0x72], false) == "Zm9vYmFy"
  {
    LastGroup([0x66]);
    LastGroup([0x66, 0x6F]);
    LastGroup([0x66, 0x6F, 0x6F]);
    assert [0x66, 0x6F, 0x6F, 0x62][3..] == [0x62];
    LastGroup([0x62]);
    assert [0x66, 0x6F, 0x6F, 0x62, 0x61][3..] == [0x62, 0x61];
    LastGroup([0x62, 0x61]);
    assert [0x66, 0x6F, 0x6F, 0x62, 0x61, 0x72][3..] == [0x62, 0x61, 0x72];
    LastGroup([0x62, 0x61, 0x72]);
  }

  lemma LastGroup(s: bytes)
    requires 1 <= |s| <= 3
    ensures forall url: bool :: Encoded(s, url) == Group(s, url)
  {
    assert |s| == 3 ==> s[3..] == [];
    assert forall url: bool :: Encoded([], url) == "";
  }

  lemma EncodedStep(s: bytes, before: string, url: bool)
    requires s != []
    ensures before + Encoded(s, url) == before + Group(s, url) + Encoded(Behind(s), url)
  {
  }

  /** The values of an unsigned int. */
  const WORD: nat := 0x1_0000_0000

  /** The unsigned position of the encoding loop after n turns. */
  function PositionAfter(n: nat): nat { 3 * n % WORD }

  /** The loop of misc/base64.cpp ends just for fewer than 2^32 octets: its position is an unsigned int, the length a size_t. */
  lemma LoopEndsExactly(length: nat)
    ensures (exists n :: PositionAfter(n) >= length) <==> length < WORD
  {
    assert PositionAfter(0x5555_5555) == WORD - 1;
  }

  /** base64_encode of misc/base64.cpp. */
  method EncodeMisc(s: bytes, url: bool) returns (ret: string)
    requires |s| < WORD
    ensures ret == Encoded(s, url)
  {
    ret := "";
    var pos := 0;
    ghost var rest, n := s, 0;
    assert "" + Encoded(s, url) == Encoded(s, url);
    while pos < |s|
      invariant pos < WORD && pos == PositionAfter(n) == 3 * n
      invariant rest == if pos < |s| then s[pos..] else []
      invariant Encoded(s, url) == ret + Encoded(rest, url)
      decreases |s| - pos
    {
      EncodedStep(rest, ret, url);
      NoWrap(n);
      ret := PushGroup(s, pos, url, ret);
      pos := (pos + 3) % WORD;
      n := n + 1;
      rest := Behind(rest);
    }
  }

  /** 2^32 - 1 is a multiple of three, so the position does not wrap in front of it. */
  lemma NoWrap(n: nat)
    requires 3 * n < WORD - 1
    ensures 3 * n + 3 < WORD && PositionAfter(n + 1) == 3 * n + 3
  {
  }

  /** The body of its loop. */
  method PushGroup(s: bytes, pos: nat, url: bool, before: string) returns (ret: string)
    requires pos < |s| && pos + 3 < WORD
    ensures ret == before + Group(s[pos..], url)
  {
    ret := before + [CharOf(s[pos] as nat / 4, url)];
    if (pos + 1) % WORD < |s| {
      ret := ret + [CharOf(s[pos] as nat % 4 * 16 + s[pos + 1] as nat / 16, url)];
      if (pos + 2) % WORD < |s| {
        ret := ret + [CharOf(s[pos + 1] as nat % 16 * 4 + s[pos + 2] as nat / 64, url)];
        ret := ret + [CharOf(s[pos + 2] as nat % 64, url)];
      } else {
        ret := ret + [CharOf(s[pos + 1] as nat % 16 * 4, url)];
        ret := ret + [Pad(url)];
      }
    } else {
      ret := ret + [CharOf(s[pos] as nat % 4 * 16, url)];
      ret := ret + [Pad(url)];
      ret := ret + [Pad(url)];
    }
  }

  /** char_array_4 of websocketpp/base64/base64.hpp, as characters. */
  method Characters(a: array<byte>) returns (four: string)
    requires a.Length == 3
    ensures four == Triple(a[0], a[1], a[2], false)
  {
    var d0 := a[0] as nat / 4;
    var d1 := a[0] as nat % 4 * 16 + a[1] as nat / 16;
    var d2 := a[1] as nat % 16 * 4 + a[2] as nat / 64;
    var d3 := a[2] as nat % 64;
    four := [CharOf(d0, false), CharOf(d1, false), CharOf(d2, false), CharOf(d3, false)];
  }

  /** What is left in char_array_3 after the loop. */
  method EncodeRest(a: array<byte>, i: nat) returns (text: string)
    requires a.Length == 3 && 0 < i < 3
    modifies a
    ensures text == Tail(old(a[..i]), false)
  {
    ghost var s := a[..i];
    for j := i to 3
      invariant s == a[..i] && forall k :: i <= k < j ==> a[k] == 0
    {
      a[j] := 0;
    }
    var four := Characters(a);
    assert a[0] == s[0] && (i == 2 ==> a[1] == s[1]);
    text := four[..i + 1];
    for j := i to 3
      invariant text == four[..i + 1] + seq(j - i, _ => '=')
    {
      text := text + "=";
    }
  }

  lemma TripleStep(three: bytes, more: bytes, before: string)
    requires |three| == 3
    ensures before + Encoded(three + more, false) == before + Triple(three[0], three[1], three[2], false) + Encoded(more, false)
  {
    var s := three + more;
    EncodedStep(s, before, false);
    assert s[0] == three[0] && s[1] == three[1] && s[2] == three[2] && s[3..] == more;
  }

  lemma TailStep(left: bytes, before: string)
    requires 0 < |left| < 3
    ensures before + Encoded(left, false) == before + Tail(left, false)
  {
    EncodedStep(left, before, false);
    assert before + Tail(left, false) + "" == before + Tail(left, false);
  }

  /** base64_encode of websocketpp/base64/base64.hpp. */
  method EncodeWs(input: bytes) returns (ret: string)
    ensures ret == Encoded(input, false)
  {
    ret := "";
    var a := new byte[3](_ => 0);
    var i: nat := 0;
    ghost var held: bytes := [];   // what is in the array
    assert held + input[0..] == input && "" + Encoded(input, false) == Encoded(input, false);
    for pos := 0 to |input|
      invariant i < 3 && a.Length == 3 && fresh(a) && a[..i] == held
      invariant Encoded(input, false) == ret + Encoded(held + input[pos..], false)
    {
      Moved(held, input, pos);
      held := held + [input[pos]];
      Store(a, i, input[pos], held);
      i := i + 1;
      if i == 3 {
        var four := FourChars(a, held, input[pos + 1..], ret);
        ret := ret + four;
        i := 0;
        held := [];
      }
    }
    assert held + input[|input|..] == held;
    if i > 0 {
      TailStep(held, ret);
      var four := EncodeRest(a, i);
      ret := ret + four;
    }
  }

  /** char_array_3[i++] */
  method Store(a: array<byte>, i: nat, octet: byte, ghost held: bytes)
    requires i < a.Length == 3 && held == a[..i] + [octet]
    modifies a
    ensures a[..i + 1] == held
  {
    a[i] := octet;
  }

  /** The array is full: its four characters are those of the next group. */
  method FourChars(a: array<byte>, ghost held: bytes, ghost more: bytes, ghost before: string) returns (four: string)
    requires a.Length == 3 && a[..3] == held
    ensures before + Encoded(held + more, false) == before + four + Encoded([] + more, false)
  {
    four := Characters(a);
    assert held == [a[0], a[1], a[2]] && [] + more == more;
    TripleStep(held, more, before);
  }

  lemma Moved(held: bytes, input: bytes, pos: nat)
    requires pos < |input|
    ensures held + input[pos..] == held + [input[pos]] + input[pos + 1..]
  {
  }

  // ---------------------------------------------------------------- decoding in misc/base64.cpp

  /** std::string's operator[]: the place behind the last character holds a zero. */
  function At(s: string, i: nat): char
    requires i <= |s|
  {
    if i < |s| then s[i] else 0 as char
  }

  predicate IsPad(c: char) { c == '=' || c == '.' }

  /** One turn of the loop: up to three octets from four characters; None is the exception. */
  function DecodedGroup(s: string): Option<bytes>
    requires s != ""
  {
    var p1, p0 := PosOfChar(At(s, 1)), PosOfChar(s[0]);
    if p1.None? || p0.None? then None
    else if IsPad(At(s, 2)) then Some([B0(p0.value, p1.value)])
    else
      var p2 := PosOfChar(At(s, 2));
      if p2.None? then None
      else if IsPad(At(s, 3)) then Some([B0(p0.value, p1.value), B1(p1.value, p2.value)])
      else
        var p3 := PosOfChar(At(s, 3));
        if p3.None? then None else Some([B0(p0.value, p1.value), B1(p1.value, p2.value), B2(p2.value, p3.value)])
  }

  function Joined(a: bytes, b: Option<bytes>): Option<bytes> {
    if b.None? then None else Some(a + b.value)
  }

  function Decoded(s: string): Option<bytes>
    decreases |s|
  {
    if s == "" then Some([])
    else
      var one := DecodedGroup(s);
      if one.None? then None else Joined(one.value, Decoded(if |s| < 4 then "" else s[4..]))
  }

  function NoBreaks(s: string): string {
    if s == "" then "" else (if s[0] == '\n' then "" else [s[0]]) + NoBreaks(s[1..])
  }

  /** decode of misc/base64.cpp. */
  method DecodeMisc(encoded: string, removeLinebreaks: bool) returns (r: Option<bytes>)
    ensures removeLinebreaks ==> r == Decoded(NoBreaks(encoded))
    ensures !removeLinebreaks ==> r == Decoded(encoded)
  {
    var s := encoded;
    if removeLinebreaks {
      s := RemoveBreaks(encoded);
    }
    var ret := [];
    var pos := 0;
    ghost var rest := s;
    JoinedNothing(Decoded(s));
    while pos < |s|
      invariant rest == if pos < |s| then s[pos..] else ""
      invariant Decoded(s) == Joined(ret, Decoded(rest))
      decreases |s| - pos
    {
      var one := DecodeGroup(s, pos);
      if one.None? {
        return None;
      }
      ghost var next := if |rest| < 4 then "" else rest[4..];
      JoinedTwice(ret, one.value, Decoded(next));
      ret := ret + one.value;
      pos := pos + 4;
      rest := next;
    }
    assert ret + [] == ret;
    return Some(ret);
  }

  lemma JoinedNothing(d: Option<bytes>)
    ensures Joined([], d) == d
  {
    if d.Some? { assert [] + d.value == d.value; }
  }

  lemma JoinedTwice(a: bytes, b: bytes, d: Option<bytes>)
    ensures Joined(a, Joined(b, d)) == Joined(a + b, d)
  {
    if d.Some? { assert a + (b + d.value) == a + b + d.value; }
  }

  /** The body of its loop. */
  method DecodeGroup(s: string, pos: nat) returns (r: Option<bytes>)
    requires pos < |s|
    ensures r == DecodedGroup(s[pos..])
  {
    assert s[pos..][0] == s[pos] && At(s[pos..], 1) == At(s, pos + 1);
    assert pos + 2 <= |s| ==> At(s[pos..], 2) == At(s, pos + 2);
    assert pos + 3 <= |s| ==> At(s[pos..], 3) == At(s, pos + 3);
    var p1 := PosOfChar(At(s, pos + 1));
    if p1.None? {
      return None;
    }
    var p0 := PosOfChar(s[pos]);
    if p0.None? {
      return None;
    }
    var ret := [B0(p0.value, p1.value)];
    if !IsPad(At(s, pos + 2)) {
      var p2 := PosOfChar(At(s, pos + 2));
      if p2.None? {
        return None;
      }
      ret := ret + [B1(p1.value, p2.value)];
      assert ret == [B0(p0.value, p1.value), B1(p1.value, p2.value)];
      if !IsPad(At(s, pos + 3)) {
        var p3 := PosOfChar(At(s, pos + 3));
        if p3.None? {
          return None;
        }
        ret := ret + [B2(p2.value, p3.value)];
        assert ret == [B0(p0.value, p1.value), B1(p1.value, p2.value), B2(p2.value, p3.value)];
      }
    }
    return Some(ret);
  }

  function NewlineAt(s: string, i: nat): (p: nat)
    requires i <= |s|
    ensures i <= p <= |s| && (forall j :: i <= j < p ==> s[j] != '\n') && (p < |s| ==> s[p] == '\n')
    decreases |s| - i
  {
    if i == |s| || s[i] == '\n' then i else NewlineAt(s, i + 1)
  }

  /** The erasing loop of decode. */
  method RemoveBreaks(s: string) returns (copy: string)
    ensures copy == NoBreaks(s)
  {
    copy := s;
    var pos := NewlineAt(copy, 0);
    while pos < |copy|
      invariant 0 <= pos <= |copy| && pos == NewlineAt(copy, pos) && NoBreaks(copy) == NoBreaks(s)
      invariant forall j :: 0 <= j < pos ==> copy[j] != '\n'
      decreases |copy|
    {
      BreakErased(copy, pos);
      copy := copy[..pos] + copy[pos + 1..];
      pos := NewlineAt(copy, pos);
    }
    NothingToErase(copy);
  }

  lemma {:induction false} NoBreaksAppend(a: string, b: string)
    ensures NoBreaks(a + b) == NoBreaks(a) + NoBreaks(b)
  {
    if a == "" {
      assert a + b == b;
    } else {
      assert (a + b)[1..] == a[1..] + b;
      NoBreaksAppend(a[1..], b);
    }
  }

  lemma BreakErased(s: string, pos: nat)
    requires pos < |s| && s[pos] == '\n'
    ensures NoBreaks(s[..pos] + s[pos + 1..]) == NoBreaks(s)
  {
    var before, behind := s[..pos], s[pos + 1..];
    NoBreaksAppend(before, behind);
    NoBreaksAppend(before, "\n" + behind);
    assert s == before + ("\n" + behind);
    assert ("\n" + behind)[1..] == behind;
    assert NoBreaks("\n" + behind) == "" + NoBreaks(behind) == NoBreaks(behind);
  }

  lemma {:induction false} NothingToErase(s: string)
    requires forall j :: 0 <= j < |s| ==> s[j] != '\n'
    ensures NoBreaks(s) == s
  {
    if s != "" {
      NothingToErase(s[1..]);
    }
  }

  // ---------------------------------------------------------------- line breaks

  /** Lines of `distance` characters, the last one shorter or as long. */
  function Broken(s: string, distance: nat): string
    requires distance > 0
    decreases |s|
  {
    if |s| <= distance then s else s[..distance] + "\n" + Broken(s[distance..], distance)
  }

  /** insert_linebreaks of misc/base64.cpp. */
  method InsertLinebreaks(s: string, distance: nat) returns (str: string)
    requires distance > 0
    ensures str == Broken(s, distance)
  {
    str := s;
    if |s| == 0 {
      return;
    }
    var pos := distance;
    ghost var done, rest := "", s;
    while pos < |str|
      invariant pos == |done| + distance && str == done + rest && Broken(s, distance) == done + Broken(rest, distance)
      decreases |rest|
    {
      BreakInserted(done, rest, distance);
      str := str[..pos] + "\n" + str[pos..];
      done := done + rest[..distance] + "\n";
      rest := rest[distance..];
      pos := pos + distance + 1;
    }
  }

  lemma BreakInserted(done: string, rest: string, distance: nat)
    requires 0 < distance < |rest|
    ensures var pos, str := |done| + distance, done + rest;
            && str[..pos] + "\n" + str[pos..] == done + rest[..distance] + "\n" + rest[distance..]
            && done + Broken(rest, distance) == done + rest[..distance] + "\n" + Broken(rest[distance..], distance)
  {
  }

  lemma {:induction false} BreaksRemoved(s: string, distance: nat)
    requires distance > 0
    ensures NoBreaks(Broken(s, distance)) == NoBreaks(s)
    decreases |s|
  {
    if |s| > distance {
      var rest := Broken(s[distance..], distance);
      assert Broken(s, distance) == s[..distance] + ("\n" + rest);
      NoBreaksAppend(s[..distance], "\n" + rest);
      NoBreaksAppend("\n", rest);
      assert NoBreaks("\n") == "" + NoBreaks("");
      BreaksRemoved(s[distance..], distance);
      NoBreaksAppend(s[..distance], s[distance..]);
      assert s == s[..distance] + s[distance..];
    }
  }

  // ---------------------------------------------------------------- decoding in base64.hpp

  predicate IsBase64(c: char) {
    var n := c as int;
    n == 43 || 47 <= n <= 57 || 65 <= n <= 90 || 97 <= n <= 122
  }

  /** The characters that are taken are those of the ordinary alphabet. */
  lemma IsBase64Exactly(c: char)
    ensures IsBase64(c) <==> exists d: Digit :: c == CharOf(d, false)
  {
    if IsBase64(c) {
      assert c == CharOf(PosOfChar(c).value, false);
    }
  }

  function TakenEnd(s: string): (n: nat)
    ensures n <= |s| && (forall i :: 0 <= i < n ==> IsBase64(s[i])) && (n < |s| ==> !IsBase64(s[n]))
  {
    if s == "" || !IsBase64(s[0]) then 0 else 1 + TakenEnd(s[1..])
  }

  /** base64_chars.find, called only for characters of the alphabet. */
  function IndexOf(c: char): Digit {
    if PosOfChar(c).Some? then PosOfChar(c).value else 0
  }

  /** Four characters are three octets; of fewer, the octets that are complete. */
  function DecodedChars(s: string): bytes
    decreases |s|
  {
    if |s| >= 4 then DecodedFour(s[..4]) + DecodedChars(s[4..])
    else if |s| < 2 then [] else DecodedLeft(s)
  }

  function DecodedFour(s: string): bytes
    requires |s| == 4
  {
    [B0(IndexOf(s[0]), IndexOf(s[1])), B1(IndexOf(s[1]), IndexOf(s[2])), B2(IndexOf(s[2]), IndexOf(s[3]))]
  }

  function DecodedLeft(s: string): bytes
    requires 2 <= |s| < 4
  {
    [B0(IndexOf(s[0]), IndexOf(s[1]))] + if |s| == 3 then [B1(IndexOf(s[1]), IndexOf(s[2]))] else []
  }

  /** Decoding stops at the first character that is not of the alphabet. */
  function DecodedText(s: string): bytes {
    DecodedChars(s[..TakenEnd(s)])
  }

  /** An int, which must not overflow. */
  type Int32 = x: int | -0x8000_0000 <= x < 0x8000_0000

  /** base64_decode of websocketpp/base64/base64.hpp, which counts the characters it takes with an int. */
  method DecodeWs(input: string) returns (ret: bytes)
    requires TakenEnd(input) < 0x8000_0000
    ensures ret == DecodedText(input)
  {
    ret := [];
    ghost var taken := input[..TakenEnd(input)];
    ghost var rest, left := taken, taken;   // what has not been read, and what has not been decoded
    var four: string := "";
    var pos: Int32 := 0;
    assert "" + taken == taken && [] + DecodedChars(taken) == DecodedChars(taken);
    while pos < |input| && input[pos] != '=' && IsBase64(input[pos])
      invariant 0 <= pos <= |taken| && rest == taken[pos..] && |four| < 4 && left == four + rest
      invariant DecodedChars(taken) == ret + DecodedChars(left)
    {
      CharMoves(four, rest);
      four := four + [input[pos]];
      rest := rest[1..];
      pos := pos + 1;
      if |four| == 4 {
        FourStep(four, rest, ret);
        ret := ret + DecodedFour(four);
        four := "";
        left := rest;
        assert four + rest == rest;
      }
    }
    assert pos == |taken| && left == four;
    if |four| >= 2 {
      ret := ret + DecodedLeft(four);
    } else {
      assert ret + [] == ret;
    }
  }

  lemma CharMoves(four: string, rest: string)
    requires rest != ""
    ensures four + rest == four + [rest[0]] + rest[1..]
  {
  }

  lemma FourStep(four: string, more: string, before: bytes)
    requires |four| == 4
    ensures before + DecodedChars(four + more) == before + DecodedFour(four) + DecodedChars(more)
  {
    assert (four + more)[..4] == four && (four + more)[4..] == more;
  }

  // ---------------------------------------------------------------- main results

  /** misc/base64.cpp decodes what either encoder wrote, in either alphabet. */
  lemma {:induction false} MiscInverts(s: bytes, url: bool)
    ensures Decoded(Encoded(s, url)) == Some(s)
    decreases |s|
  {
    if s != [] {
      var group, rest := Group(s, url), Encoded(Behind(s), url);
      GroupInverts(s, url, rest);
      MiscInverts(Behind(s), url);
      assert (group + rest)[4..] == rest;
      assert s == s[..|s| - |Behind(s)|] + Behind(s);
    }
  }

  lemma GroupInverts(s: bytes, url: bool, rest: string)
    requires s != []
    ensures DecodedGroup(Group(s, url) + rest) == Some(s[..|s| - |Behind(s)|])
  {
    if |s| == 1 {
      OneInverts(s[0], url, rest);
      assert s[..1] == [s[0]];
    } else if |s| == 2 {
      TwoInvert(s[0], s[1], url, rest);
      assert s[..2] == [s[0], s[1]];
    } else {
      ThreeInvert(s[0], s[1], s[2], url, rest);
      assert s[..3] == [s[0], s[1], s[2]];
    }
  }

  /** What the loop makes of four characters, by the digits they stand for. */
  lemma FourDecode(c0: char, c1: char, c2: char, c3: char, d0: Digit, d1: Digit, d2: Digit, d3: Digit, rest: string)
    requires PosOfChar(c0) == Some(d0) && PosOfChar(c1) == Some(d1)
    requires IsPad(c2) || (PosOfChar(c2) == Some(d2) && (IsPad(c3) || PosOfChar(c3) == Some(d3)))
    ensures DecodedGroup([c0, c1, c2, c3] + rest) == Some(
              if IsPad(c2) then [B0(d0, d1)]
              else if IsPad(c3) then [B0(d0, d1), B1(d1, d2)]
              else [B0(d0, d1), B1(d1, d2), B2(d2, d3)])
  {
    var s := [c0, c1, c2, c3] + rest;
    assert s[0] == c0 && s[1] == c1 && s[2] == c2 && s[3] == c3;
  }

  lemma OneInverts(a: byte, url: bool, rest: string)
    ensures DecodedGroup([CharOf(D0(a), url), CharOf(D1(a, 0), url), Pad(url), Pad(url)] + rest) == Some([a])
  {
    CharsRead(D0(a), url);
    CharsRead(D1(a, 0), url);
    FourDecode(CharOf(D0(a), url), CharOf(D1(a, 0), url), Pad(url), Pad(url), D0(a), D1(a, 0), 0, 0, rest);
    OctetsReturn(a, 0, 0);
  }

  lemma TwoInvert(a: byte, b: byte, url: bool, rest: string)
    ensures DecodedGroup([CharOf(D0(a), url), CharOf(D1(a, b), url), CharOf(D2(b, 0), url), Pad(url)] + rest) == Some([a, b])
  {
    CharsRead(D0(a), url);
    CharsRead(D1(a, b), url);
    CharsRead(D2(b, 0), url);
    FourDecode(CharOf(D0(a), url), CharOf(D1(a, b), url), CharOf(D2(b, 0), url), Pad(url), D0(a), D1(a, b), D2(b, 0), 0, rest);
    OctetsReturn(a, b, 0);
  }

  lemma ThreeInvert(a: byte, b: byte, c: byte, url: bool, rest: string)
    ensures DecodedGroup(Triple(a, b, c, url) + rest) == Some([a, b, c])
  {
    CharsRead(D0(a), url);
    CharsRead(D1(a, b), url);
    CharsRead(D2(b, c), url);
    CharsRead(D3(c), url);
    FourDecode(CharOf(D0(a), url), CharOf(D1(a, b), url), CharOf(D2(b, c), url), CharOf(D3(c), url),
               D0(a), D1(a, b), D2(b, c), D3(c), rest);
    OctetsReturn(a, b, c);
  }

  lemma {:induction false} NoBreaksInside(s: bytes, url: bool)
    ensures forall i :: 0 <= i < |Encoded(s, url)| ==> Encoded(s, url)[i] != '\n'
    decreases |s|
  {
    if s != [] {
      NoBreaksInside(Behind(s), url);
      GroupHasNoBreak(s, url);
    }
  }

  lemma GroupHasNoBreak(s: bytes, url: bool)
    requires s != []
    ensures forall i :: 0 <= i < 4 ==> Group(s, url)[i] != '\n'
  {
    if |s| < 3 {
      CharsRead(D0(s[0]), url);
      CharsRead(D1(s[0], if |s| == 2 then s[1] else 0), url);
      CharsRead(if |s| == 2 then D2(s[1], 0) else 0, url);
    } else {
      ThreeAreChars(s[0], s[1], s[2], url);
    }
  }

  lemma ThreeAreChars(a: byte, b: byte, c: byte, url: bool)
    ensures forall i :: 0 <= i < 4 ==> Triple(a, b, c, url)[i] != '\n'
  {
    CharsRead(D0(a), url);
    CharsRead(D1(a, b), url);
    CharsRead(D2(b, c), url);
    CharsRead(D3(c), url);
  }

  /** Decoding with remove_linebreaks undoes the line breaks of base64_encode_pem (64), base64_encode_mime
      (76) and of any other line length. */
  lemma BreaksUndone(s: bytes, distance: nat)
    requires distance > 0
    ensures Decoded(NoBreaks(Broken(Encoded(s, false), distance))) == Some(s)
  {
    BreaksRemoved(Encoded(s, false), distance);
    NoBreaksInside(s, false);
    NothingToErase(Encoded(s, false));
    MiscInverts(s, false);
  }

  /** base64.hpp decodes what either encoder wrote in the standard alphabet. */
  lemma {:induction false} WsInverts(s: bytes)
    ensures DecodedText(Encoded(s, false)) == s
    decreases |s|
  {
    if |s| >= 3 {
      WsInverts(s[3..]);
      WsStep(s);
    } else if s != [] {
      TailInverts(s);
      assert Tail(s, false) + "" == Tail(s, false);
    }
  }

  lemma WsStep(s: bytes)
    requires |s| >= 3 && DecodedText(Encoded(s[3..], false)) == s[3..]
    ensures DecodedText(Encoded(s, false)) == s
  {
    EncodedTriple(s);
    GroupReads(s[0], s[1], s[2], Encoded(s[3..], false));
    FirstThree(s);
  }

  lemma EncodedTriple(s: bytes)
    requires |s| >= 3
    ensures Encoded(s, false) == Triple(s[0], s[1], s[2], false) + Encoded(s[3..], false)
  {
  }

  lemma FirstThree(s: bytes)
    requires |s| >= 3
    ensures [s[0], s[1], s[2]] + s[3..] == s
  {
  }

  lemma GroupReads(a: byte, b: byte, c: byte, rest: string)
    ensures DecodedText(Triple(a, b, c, false) + rest) == [a, b, c] + DecodedText(rest)
  {
    var group, taken := Triple(a, b, c, false), rest[..TakenEnd(rest)];
    TripleTaken(a, b, c, rest);
    FourStep(group, taken, []);
    TripleInverts(a, b, c);
    assert [] + DecodedChars(group + taken) == DecodedChars(group + taken);
    assert [] + DecodedFour(group) == DecodedFour(group);
  }

  lemma AlphabetTaken(d: Digit)
    ensures IsBase64(CharOf(d, false)) && IndexOf(CharOf(d, false)) == d
  {
  }

  /** Characters of the alphabet are taken, and then what is taken of the rest. */
  lemma AllTaken(front: string, rest: string)
    requires forall i :: 0 <= i < |front| ==> IsBase64(front[i])
    ensures (front + rest)[..TakenEnd(front + rest)] == front + rest[..TakenEnd(rest)]
  {
    var text, n := front + rest, |front| + TakenEnd(rest);
    assert forall i :: 0 <= i < TakenEnd(rest) ==> text[|front| + i] == rest[i];
    assert n < |text| ==> text[n] == rest[TakenEnd(rest)];
    assert TakenEnd(text) == n;
  }

  lemma TripleTaken(a: byte, b: byte, c: byte, rest: string)
    ensures var text := Triple(a, b, c, false) + rest;
            text[..TakenEnd(text)] == Triple(a, b, c, false) + rest[..TakenEnd(rest)]
  {
    AlphabetTaken(D0(a));
    AlphabetTaken(D1(a, b));
    AlphabetTaken(D2(b, c));
    AlphabetTaken(D3(c));
    AllTaken(Triple(a, b, c, false), rest);
  }

  lemma TripleInverts(a: byte, b: byte, c: byte)
    ensures DecodedFour(Triple(a, b, c, false)) == [a, b, c]
  {
    AlphabetTaken(D0(a));
    AlphabetTaken(D1(a, b));
    AlphabetTaken(D2(b, c));
    AlphabetTaken(D3(c));
    OctetsReturn(a, b, c);
  }

  lemma TailInverts(s: bytes)
    requires 1 <= |s| <= 2
    ensures DecodedText(Tail(s, false)) == s
  {
    if |s| == 1 {
      LastOne(s[0]);
      assert s == [s[0]];
    } else {
      LastTwo(s[0], s[1]);
      assert s == [s[0], s[1]];
    }
  }

  lemma TwoTaken(c0: char, c1: char, d0: Digit, d1: Digit)
    requires IsBase64(c0) && IsBase64(c1) && IndexOf(c0) == d0 && IndexOf(c1) == d1
    ensures DecodedText([c0, c1] + "==") == [B0(d0, d1)]
  {
    AllTaken([c0, c1], "==");
    assert [c0, c1] + "" == [c0, c1];
  }

  lemma ThreeTaken(c0: char, c1: char, c2: char, d0: Digit, d1: Digit, d2: Digit)
    requires IsBase64(c0) && IsBase64(c1) && IsBase64(c2) && IndexOf(c0) == d0 && IndexOf(c1) == d1 && IndexOf(c2) == d2
    ensures DecodedText([c0, c1, c2] + "=") == [B0(d0, d1), B1(d1, d2)]
  {
    AllTaken([c0, c1, c2], "=");
    assert [c0, c1, c2] + "" == [c0, c1, c2];
  }

  lemma LastOne(a: byte)
    ensures DecodedText(Tail([a], false)) == [a]
  {
    LastOneOf(a, 0, Tail([a], false));
  }

  lemma LastOneOf(a: byte, zero: byte, text: string)
    requires text == [CharOf(D0(a), false), CharOf(D1(a, zero), false), '=', '=']
    ensures DecodedText(text) == [a]
  {
    AlphabetTaken(D0(a));
    AlphabetTaken(D1(a, zero));
    OctetsReturn(a, zero, zero);
    OneReturns(CharOf(D0(a), false), CharOf(D1(a, zero), false), D0(a), D1(a, zero), a, text);
  }

  lemma OneReturns(c0: char, c1: char, d0: Digit, d1: Digit, a: byte, text: string)
    requires IsBase64(c0) && IsBase64(c1) && IndexOf(c0) == d0 && IndexOf(c1) == d1 && text == [c0, c1, '=', '='] && B0(d0, d1) == a
    ensures DecodedText(text) == [a]
  {
    TwoTaken(c0, c1, d0, d1);
    assert text == [c0, c1] + "==";
  }

  lemma LastTwo(a: byte, b: byte)
    ensures DecodedText(Tail([a, b], false)) == [a, b]
  {
    AlphabetTaken(D0(a));
    AlphabetTaken(D1(a, b));
    AlphabetTaken(D2(b, 0));
    OctetsReturn(a, b, 0);
    TwoReturn(CharOf(D0(a), false), CharOf(D1(a, b), false), CharOf(D2(b, 0), false), D0(a), D1(a, b), D2(b, 0), a, b,
              Tail([a, b], false));
  }

  lemma TwoReturn(c0: char, c1: char, c2: char, d0: Digit, d1: Digit, d2: Digit, a: byte, b: byte, text: string)
    requires IsBase64(c0) && IsBase64(c1) && IsBase64(c2) && text == [c0, c1, c2, '=']
    requires IndexOf(c0) == d0 && IndexOf(c1) == d1 && IndexOf(c2) == d2 && B0(d0, d1) == a && B1(d1, d2) == b
    ensures DecodedText(text) == [a, b]
  {
    ThreeTaken(c0, c1, c2, d0, d1, d2);
    assert text == [c0, c1, c2] + "=";
  }

  // ---------------------------------------------------------------- how long a text base64.hpp can read back

  function CharsFor(n: nat): nat {
    n / 3 * 4 + if n % 3 == 0 then 0 else n % 3 + 1
  }

  lemma CharsForThree(n: nat)
    requires n >= 3
    ensures CharsFor(n) == 4 + CharsFor(n - 3)
  {
  }

  lemma TailLength(c: string, pads: string)
    requires forall i :: 0 <= i < |c| ==> IsBase64(c[i])
    requires pads != "" && !IsBase64(pads[0])
    ensures TakenEnd(c + pads) == |c|
  {
    AllTaken(c, pads);
  }

  lemma TailTaken(s: bytes)
    requires 1 <= |s| <= 2
    ensures TakenEnd(Tail(s, false)) == |s| + 1
  {
    AlphabetTaken(D0(s[0]));
    AlphabetTaken(D1(s[0], if |s| == 2 then s[1] else 0));
    AlphabetTaken(if |s| == 2 then D2(s[1], 0) else 0);
    var text := Tail(s, false);
    TailLength(text[..|s| + 1], text[|s| + 1..]);
    assert text == text[..|s| + 1] + text[|s| + 1..];
  }

  lemma {:induction false} EncodedTaken(s: bytes)
    ensures TakenEnd(Encoded(s, false)) == CharsFor(|s|)
    decreases |s|
  {
    if |s| >= 3 {
      EncodedTaken(s[3..]);
      EncodedTriple(s);
      TripleTaken(s[0], s[1], s[2], Encoded(s[3..], false));
      CharsForThree(|s|);
    } else if s != [] {
      TailTaken(s);
      assert Tail(s, false) + "" == Tail(s, false);
    }
  }

  /** What the encoders wrote is short enough for DecodeWs just below three fourths of 2^31 octets. */
  lemma ReadableExactly(s: bytes)
    ensures TakenEnd(Encoded(s, false)) < 0x8000_0000 <==> |s| < 0x6000_0000
  {
    EncodedTaken(s);
  }
}
