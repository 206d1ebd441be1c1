/**
 The MD5 primitives both codes share: the four round functions, the 64 steps on a block, and the
 translation between octets and words. The two sources write the additive constants and the decoding of a
 word differently; both forms are here and are proved equal.
 */
module Md5Compression {
  import opened Wrappers
  import opened Md5

  datatype State = State(a: bv32, b: bv32, c: bv32, d: bv32)

  /** The four variables of the steps. */
  datatype Vars<W> = Vars(a: W, b: W, c: W, d: W)

  function ToVars(s: State): Vars<bv32> { Vars(s.a, s.b, s.c, s.d) }

  function ToState(v: Vars<bv32>): State { State(v.a, v.b, v.c, v.d) }

  function F(x: bv32, y: bv32, z: bv32): bv32 { (x & y) | (!x & z) }
  function G(x: bv32, y: bv32, z: bv32): bv32 { (x & z) | (y & !z) }
  function H(x: bv32, y: bv32, z: bv32): bv32 { x ^ y ^ z }
  function I(x: bv32, y: bv32, z: bv32): bv32 { y ^ (x | !z) }

  function RotateLeft(x: bv32, n: Shift): bv32
  {
    (x << n) | (x >> (32 - n))
  }

  const T_MASK: bv32 := 0xffff_ffff

  type Place = x: nat | x < 16
  type Shift = x: nat | x <= 32

  /** Four lines of a source at a time, after which the variables are in their places again. */
  datatype Four<T> = Four(l0: T, l1: T, l2: T, l3: T)

  function Nth<T>(f: Four<T>, i: nat): T
    requires i < 4
  {
    if i == 0 then f.l0 else if i == 1 then f.l1 else if i == 2 then f.l2 else f.l3
  }

  /** Which word, which rotation and which constant each of the 64 steps uses. */
  const WORDS: seq<Four<Place>> := [
    Four(0, 1, 2, 3), Four(4, 5, 6, 7), Four(8, 9, 10, 11), Four(12, 13, 14, 15),
    Four(1, 6, 11, 0), Four(5, 10, 15, 4), Four(9, 14, 3, 8), Four(13, 2, 7, 12),
    Four(5, 8, 11, 14), Four(1, 4, 7, 10), Four(13, 0, 3, 6), Four(9, 12, 15, 2),
    Four(0, 7, 14, 5), Four(12, 3, 10, 1), Four(8, 15, 6, 13), Four(4, 11, 2, 9)
  ]
  const SHIFTS: seq<Four<Shift>> := [Four(7, 12, 17, 22), Four(5, 9, 14, 20), Four(4, 11, 16, 23), Four(6, 10, 15, 21)]
  const T_CPP: seq<Four<bv32>> := [
    Four(0xd76aa478, 0xe8c7b756, 0x242070db, 0xc1bdceee), Four(0xf57c0faf, 0x4787c62a, 0xa8304613, 0xfd469501),
    Four(0x698098d8, 0x8b44f7af, 0xffff5bb1, 0x895cd7be), Four(0x6b901122, 0xfd987193, 0xa679438e, 0x49b40821),
    Four(0xf61e2562, 0xc040b340, 0x265e5a51, 0xe9b6c7aa), Four(0xd62f105d, 0x02441453, 0xd8a1e681, 0xe7d3fbc8),
    Four(0x21e1cde6, 0xc33707d6, 0xf4d50d87, 0x455a14ed), Four(0xa9e3e905, 0xfcefa3f8, 0x676f02d9, 0x8d2a4c8a),
    Four(0xfffa3942, 0x8771f681, 0x6d9d6122, 0xfde5380c), Four(0xa4beea44, 0x4bdecfa9, 0xf6bb4b60, 0xbebfbc70),
    Four(0x289b7ec6, 0xeaa127fa, 0xd4ef3085, 0x04881d05), Four(0xd9d4d039, 0xe6db99e5, 0x1fa27cf8, 0xc4ac5665),
    Four(0xf4292244, 0x432aff97, 0xab9423a7, 0xfc93a039), Four(0x655b59c3, 0x8f0ccc92, 0xffeff47d, 0x85845dd1),
    Four(0x6fa87e4f, 0xfe2ce6e0, 0xa3014314, 0x4e0811a1), Four(0xf7537e82, 0xbd3af235, 0x2ad7d2bb, 0xeb86d391)
  ]
  const T_HPP: seq<Four<bv32>> := [
    Four(T_MASK ^ 0x28955b87, T_MASK ^ 0x173848a9, 0x242070db, T_MASK ^ 0x3e423111),
    Four(T_MASK ^ 0x0a83f050, 0x4787c62a, T_MASK ^ 0x57cfb9ec, T_MASK ^ 0x02b96afe),
    Four(0x698098d8, T_MASK ^ 0x74bb0850, T_MASK ^ 0x0000a44e, T_MASK ^ 0x76a32841),
    Four(0x6b901122, T_MASK ^ 0x02678e6c, T_MASK ^ 0x5986bc71, 0x49b40821),
    Four(T_MASK ^ 0x09e1da9d, T_MASK ^ 0x3fbf4cbf, 0x265e5a51, T_MASK ^ 0x16493855),
    Four(T_MASK ^ 0x29d0efa2, 0x02441453, T_MASK ^ 0x275e197e, T_MASK ^ 0x182c0437),
    Four(0x21e1cde6, T_MASK ^ 0x3cc8f829, T_MASK ^ 0x0b2af278, 0x455a14ed),
    Four(T_MASK ^ 0x561c16fa, T_MASK ^ 0x03105c07, 0x676f02d9, T_MASK ^ 0x72d5b375),
    Four(T_MASK ^ 0x0005c6bd, T_MASK ^ 0x788e097e, 0x6d9d6122, T_MASK ^ 0x021ac7f3),
    Four(T_MASK ^ 0x5b4115bb, 0x4bdecfa9, T_MASK ^ 0x0944b49f, T_MASK ^ 0x4140438f),
    Four(0x289b7ec6, T_MASK ^ 0x155ed805, T_MASK ^ 0x2b10cf7a, 0x04881d05),
    Four(T_MASK ^ 0x262b2fc6, T_MASK ^ 0x1924661a, 0x1fa27cf8, T_MASK ^ 0x3b53a99a),
    Four(T_MASK ^ 0x0bd6ddbb, 0x432aff97, T_MASK ^ 0x546bdc58, T_MASK ^ 0x036c5fc6),
    Four(0x655b59c3, T_MASK ^ 0x70f3336d, T_MASK ^ 0x00100b82, T_MASK ^ 0x7a7ba22e),
    Four(0x6fa87e4f, T_MASK ^ 0x01d3191f, T_MASK ^ 0x5cfebceb, 0x4e0811a1),
    Four(T_MASK ^ 0x08ac817d, T_MASK ^ 0x42c50dca, 0x2ad7d2bb, T_MASK ^ 0x14792c6e)
  ]

  /** What one of the two sources writes in its own way: the constants and the decoding of a word. */
  datatype Form = Form(t: seq<Four<bv32>>, sums: bool) {
    predicate Fits() {
      |t| == 16
    }
  }

  function Cpp(): Form { Form(T_CPP, false) }

  function Hpp(): Form { Form(T_HPP, true) }

  /** The same constants: one source writes those with the top bit set as complements. */
  lemma ConstantsAgree()
    ensures T_CPP == T_HPP
  {
    assert |T_CPP| == |T_HPP| == 16;
    forall i | 0 <= i < 16 ensures T_CPP[i] == T_HPP[i] {
    }
  }

  lemma TablesFit()
    ensures Cpp().Fits() && Hpp().Fits() && |WORDS| == 16 && |SHIFTS| == 4
  {
  }

  function WordOf(n: nat): Place
    requires n < 64
  {
    TablesFit();
    Nth(WORDS[n / 4], n % 4)
  }

  function ShiftOf(n: nat): Shift
    requires n < 64
  {
    TablesFit();
    Nth(SHIFTS[n / 16], n % 4)
  }

  function ConstantOf(form: Form, n: nat): bv32
    requires form.Fits() && n < 64
  {
    Nth(form.t[n / 4], n % 4)
  }

  /** misc/md5.cpp joins the octets of a word with `|`, the big-endian path of md5.hpp adds them. */
  function Join(sums: bool, p0: bv32, p1: bv32, p2: bv32, p3: bv32): bv32 {
    if sums then p0 + (p1 << 8) + (p2 << 16) + (p3 << 24) else p0 | (p1 << 8) | (p2 << 16) | (p3 << 24)
  }

  lemma JoinsAgree(p0: bv32, p1: bv32, p2: bv32, p3: bv32)
    requires p0 < 256 && p1 < 256 && p2 < 256 && p3 < 256
    ensures Join(false, p0, p1, p2, p3) == Join(true, p0, p1, p2, p3)
  {
  }

  function Octet(b: byte): (v: bv32)
    ensures v < 256
  {
    b as bv32
  }

  function Word(sums: bool, block: bytes, k: nat): bv32
    requires k < 16 && |block| == BLOCK
  {
    Join(sums, Octet(block[4 * k]), Octet(block[4 * k + 1]), Octet(block[4 * k + 2]), Octet(block[4 * k + 3]))
  }

  lemma WordsAgree(block: bytes, k: Place)
    requires |block| == BLOCK
    ensures Word(false, block, k) == Word(true, block, k)
  {
    JoinsAgree(Octet(block[4 * k]), Octet(block[4 * k + 1]), Octet(block[4 * k + 2]), Octet(block[4 * k + 3]));
  }

  function Mix(round: nat, x: bv32, y: bv32, z: bv32): bv32 {
    if round == 0 then F(x, y, z) else if round == 1 then G(x, y, z) else if round == 2 then H(x, y, z) else I(x, y, z)
  }

  /** The new value of the first variable in FF, GG, HH and II (SET in md5.hpp). */
  function Line(round: nat, a: bv32, b: bv32, c: bv32, d: bv32, x: bv32, shift: Shift, t: bv32): bv32 {
    RotateLeft(a + Mix(round, b, c, d) + x + t, shift) + b
  }

  /** The words of a block. */
  function Words(sums: bool, block: bytes): (x: seq<bv32>)
    requires |block| == BLOCK
    ensures |x| == 16
  {
    seq(16, k requires 0 <= k < 16 => Word(sums, block, k))
  }

  /** What a step computes, for any type of words: only the order of the steps matters to Steps. */
  type LineFunction<!W> = (nat, W, W, W, W, W, Shift, bv32) -> W

  /** The new value in step n. */
  function LineAt<W>(line: LineFunction<W>, form: Form, x: seq<W>, n: nat, a: W, b: W, c: W, d: W): W
    requires form.Fits() && |x| == 16 && n < 64
  {
    line(n / 16, a, b, c, d, x[WordOf(n)], ShiftOf(n), ConstantOf(form, n))
  }

  /** The first n steps on the words of a block; in each the four variables move on by one place. */
  function Steps<W>(line: LineFunction<W>, form: Form, x: seq<W>, s: Vars<W>, n: nat): Vars<W>
    requires form.Fits() && |x| == 16 && n <= 64
  {
    if n == 0 then s else
      var p := Steps(line, form, x, s, n - 1);
      Vars(p.d, LineAt(line, form, x, n - 1, p.a, p.b, p.c, p.d), p.b, p.c)
  }

  /** MD5::transform and md5_process; a block has 64 octets. */
  function Compress(form: Form, s: State, block: bytes): State
    requires form.Fits()
  {
    if |block| != BLOCK then s else Sum(s, ToState(Steps(Line, form, Words(form.sums, block), ToVars(s), 64)))
  }

  /** Addition of 32-bit words. */
  function Plus(x: bv32, y: bv32): bv32 { x + y }

  function Sum(s: State, e: State): State {
    State(Plus(s.a, e.a), Plus(s.b, e.b), Plus(s.c, e.c), Plus(s.d, e.d))
  }

  /** encode of the state: each word low-order octet first. */
  function Encode(s: State): bytes {
    LittleEndian(s.a as nat, 4) + LittleEndian(s.b as nat, 4) + LittleEndian(s.c as nat, 4) + LittleEndian(s.d as nat, 4)
  }

  const IV_CPP := State(0x67452301, 0xefcdab89, 0x98badcfe, 0x10325476)
  const IV_HPP := State(0x67452301, T_MASK ^ 0x10325476, T_MASK ^ 0x67452301, 0x10325476)

  function Primitives(form: Form, iv: State): Hash<State>
    requires form.Fits()
  {
    Hash(iv, (s: State, block: bytes) => Compress(form, s, block), Encode)
  }

  lemma BlockWordsAgree(block: bytes)
    requires |block| == BLOCK
    ensures Words(false, block) == Words(true, block)
  {
    forall k | 0 <= k < 16 ensures Words(false, block)[k] == Words(true, block)[k] {
      WordsAgree(block, k);
    }
  }

  /** However a word is put together, the steps do the same. */
  lemma {:induction false} StepsAgree<W>(line: LineFunction<W>, f: Form, g: Form, x: seq<W>, s: Vars<W>, n: nat)
    requires f.Fits() && g == f.(sums := !f.sums) && |x| == 16 && n <= 64
    ensures Steps(line, f, x, s, n) == Steps(line, g, x, s, n)
  {
    if n > 0 {
      StepsAgree(line, f, g, x, s, n - 1);
    }
  }

  lemma CompressAgrees(f: Form, g: Form, s: State, block: bytes)
    requires f.Fits() && g == f.(sums := !f.sums)
    ensures Compress(f, s, block) == Compress(g, s, block)
  {
    if |block| == BLOCK {
      BlockWordsAgree(block);
      StepsAgree(Line, f, g, Words(f.sums, block), ToVars(s), 64);
    }
  }

  lemma DigestsAgree(f: Form, g: Form, iv: State, m: bytes)
    requires f.Fits() && g == f.(sums := !f.sums)
    ensures Digest(Primitives(f, iv), m) == Digest(Primitives(g, iv), m)
  {
    var p, q := Primitives(f, iv), Primitives(g, iv);
    forall s: State, block: bytes ensures p.compress(s, block) == q.compress(s, block) {
      CompressAgrees(f, g, s, block);
    }
    SameFold(p, q, Padded(m), |Padded(m)| / BLOCK);
  }

  /** The two sources' primitives give the same digests. */
  lemma SameDigest(m: bytes)
    ensures Cpp().Fits() && Hpp().Fits()
    ensures Digest(Primitives(Cpp(), IV_CPP), m) == Digest(Primitives(Hpp(), IV_HPP), m)
  {
    TablesFit();
    ConstantsAgree();
    assert IV_CPP == IV_HPP;
    DigestsAgree(Cpp(), Hpp(), IV_CPP, m);
  }

  /** Both codes give the same digest of every message, however each of them is fed. */
  method Md5OfBoth(pieces: seq<bytes>, otherPieces: seq<bytes>) returns (a: bytes, b: bytes)
    requires Concat(pieces) == Concat(otherPieces)
    requires NeverWraps(pieces)
    ensures Cpp().Fits() && a == b == Digest(Primitives(Cpp(), IV_CPP), Concat(pieces))
  {
    SameDigest(Concat(pieces));
    a := HashCpp(Primitives(Cpp(), IV_CPP), pieces);
    b := HashHpp(Primitives(Hpp(), IV_HPP), otherPieces);
  }
}
