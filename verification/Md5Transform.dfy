/**
 The transform of one block as the two sources write it, 64 assignments to four variables that stay in
 place, and a digest of the test suite in section A.5 of RFC 1321.
 */
module Md5Transform {
  import opened Wrappers
  import opened Md5
  import opened Md5Compression

  // ---------------------------------------------------------------- the order of the lines

  function FF<W>(line: LineFunction<W>, a: W, b: W, c: W, d: W, x: W, s: Shift, ac: bv32): W { line(0, a, b, c, d, x, s, ac) }

  function GG<W>(line: LineFunction<W>, a: W, b: W, c: W, d: W, x: W, s: Shift, ac: bv32): W { line(1, a, b, c, d, x, s, ac) }

  function HH<W>(line: LineFunction<W>, a: W, b: W, c: W, d: W, x: W, s: Shift, ac: bv32): W { line(2, a, b, c, d, x, s, ac) }

  function II<W>(line: LineFunction<W>, a: W, b: W, c: W, d: W, x: W, s: Shift, ac: bv32): W { line(3, a, b, c, d, x, s, ac) }

  /** Four lines bring the variables back to their places. */
  lemma FourLines<W>(line: LineFunction<W>, form: Form, x: seq<W>, s: Vars<W>, n: nat, a: W, b: W, c: W, d: W)
    requires form.Fits() && |x| == 16 && n + 4 <= 64
    requires var p := Steps(line, form, x, s, n);
             && a == LineAt(line, form, x, n, p.a, p.b, p.c, p.d)
             && d == LineAt(line, form, x, n + 1, p.d, a, p.b, p.c)
             && c == LineAt(line, form, x, n + 2, p.c, d, a, p.b)
             && b == LineAt(line, form, x, n + 3, p.b, c, d, a)
    ensures Steps(line, form, x, s, n + 4) == Vars(a, b, c, d)
  {
    var p := Steps(line, form, x, s, n);
    assert Steps(line, form, x, s, n + 1) == Vars(p.d, a, p.b, p.c);
    assert Steps(line, form, x, s, n + 2) == Vars(p.c, d, a, p.b);
    assert Steps(line, form, x, s, n + 3) == Vars(p.b, c, d, a);
  }

  // ---------------------------------------------------------------- misc/md5.cpp

  lemma CppRow0()
    ensures Cpp().Fits()
    ensures WordOf(0) == 0 && WordOf(1) == 1 && WordOf(2) == 2 && WordOf(3) == 3
    ensures ShiftOf(0) == 7 && ShiftOf(1) == 12 && ShiftOf(2) == 17 && ShiftOf(3) == 22
    ensures ConstantOf(Cpp(), 0) == 0xd76aa478 && ConstantOf(Cpp(), 1) == 0xe8c7b756
    ensures ConstantOf(Cpp(), 2) == 0x242070db && ConstantOf(Cpp(), 3) == 0xc1bdceee
  {
  }

  lemma CppRow4()
    ensures Cpp().Fits()
    ensures WordOf(4) == 4 && WordOf(5) == 5 && WordOf(6) == 6 && WordOf(7) == 7
    ensures ShiftOf(4) == 7 && ShiftOf(5) == 12 && ShiftOf(6) == 17 && ShiftOf(7) == 22
    ensures ConstantOf(Cpp(), 4) == 0xf57c0faf && ConstantOf(Cpp(), 5) == 0x4787c62a
    ensures ConstantOf(Cpp(), 6) == 0xa8304613 && ConstantOf(Cpp(), 7) == 0xfd469501
  {
  }

  lemma CppRow8()
    ensures Cpp().Fits()
    ensures WordOf(8) == 8 && WordOf(9) == 9 && WordOf(10) == 10 && WordOf(11) == 11
    ensures ShiftOf(8) == 7 && ShiftOf(9) == 12 && ShiftOf(10) == 17 && ShiftOf(11) == 22
    ensures ConstantOf(Cpp(), 8) == 0x698098d8 && ConstantOf(Cpp(), 9) == 0x8b44f7af
    ensures ConstantOf(Cpp(), 10) == 0xffff5bb1 && ConstantOf(Cpp(), 11) == 0x895cd7be
  {
  }

  lemma CppRow12()
    ensures Cpp().Fits()
    ensures WordOf(12) == 12 && WordOf(13) == 13 && WordOf(14) == 14 && WordOf(15) == 15
    ensures ShiftOf(12) == 7 && ShiftOf(13) == 12 && ShiftOf(14) == 17 && ShiftOf(15) == 22
    ensures ConstantOf(Cpp(), 12) == 0x6b901122 && ConstantOf(Cpp(), 13) == 0xfd987193
    ensures ConstantOf(Cpp(), 14) == 0xa679438e && ConstantOf(Cpp(), 15) == 0x49b40821
  {
  }

  lemma CppRow16()
    ensures Cpp().Fits()
    ensures WordOf(16) == 1 && WordOf(17) == 6 && WordOf(18) == 11 && WordOf(19) == 0
    ensures ShiftOf(16) == 5 && ShiftOf(17) == 9 && ShiftOf(18) == 14 && ShiftOf(19) == 20
    ensures ConstantOf(Cpp(), 16) == 0xf61e2562 && ConstantOf(Cpp(), 17) == 0xc040b340
    ensures ConstantOf(Cpp(), 18) == 0x265e5a51 && ConstantOf(Cpp(), 19) == 0xe9b6c7aa
  {
  }

  lemma CppRow20()
    ensures Cpp().Fits()
    ensures WordOf(20) == 5 && WordOf(21) == 10 && WordOf(22) == 15 && WordOf(23) == 4
    ensures ShiftOf(20) == 5 && ShiftOf(21) == 9 && ShiftOf(22) == 14 && ShiftOf(23) == 20
    ensures ConstantOf(Cpp(), 20) == 0xd62f105d && ConstantOf(Cpp(), 21) == 0x02441453
    ensures ConstantOf(Cpp(), 22) == 0xd8a1e681 && ConstantOf(Cpp(), 23) == 0xe7d3fbc8
  {
  }

  lemma CppRow24()
    ensures Cpp().Fits()
    ensures WordOf(24) == 9 && WordOf(25) == 14 && WordOf(26) == 3 && WordOf(27) == 8
    ensures ShiftOf(24) == 5 && ShiftOf(25) == 9 && ShiftOf(26) == 14 && ShiftOf(27) == 20
    ensures ConstantOf(Cpp(), 24) == 0x21e1cde6 && ConstantOf(Cpp(), 25) == 0xc33707d6
    ensures ConstantOf(Cpp(), 26) == 0xf4d50d87 && ConstantOf(Cpp(), 27) == 0x455a14ed
  {
  }

  lemma CppRow28()
    ensures Cpp().Fits()
    ensures WordOf(28) == 13 && WordOf(29) == 2 && WordOf(30) == 7 && WordOf(31) == 12
    ensures ShiftOf(28) == 5 && ShiftOf(29) == 9 && ShiftOf(30) == 14 && ShiftOf(31) == 20
    ensures ConstantOf(Cpp(), 28) == 0xa9e3e905 && ConstantOf(Cpp(), 29) == 0xfcefa3f8
    ensures ConstantOf(Cpp(), 30) == 0x676f02d9 && ConstantOf(Cpp(), 31) == 0x8d2a4c8a
  {
  }

  lemma CppRow32()
    ensures Cpp().Fits()
    ensures WordOf(32) == 5 && WordOf(33) == 8 && WordOf(34) == 11 && WordOf(35) == 14
    ensures ShiftOf(32) == 4 && ShiftOf(33) == 11 && ShiftOf(34) == 16 && ShiftOf(35) == 23
    ensures ConstantOf(Cpp(), 32) == 0xfffa3942 && ConstantOf(Cpp(), 33) == 0x8771f681
    ensures ConstantOf(Cpp(), 34) == 0x6d9d6122 && ConstantOf(Cpp(), 35) == 0xfde5380c
  {
  }

  lemma CppRow36()
    ensures Cpp().Fits()
    ensures WordOf(36) == 1 && WordOf(37) == 4 && WordOf(38) == 7 && WordOf(39) == 10
    ensures ShiftOf(36) == 4 && ShiftOf(37) == 11 && ShiftOf(38) == 16 && ShiftOf(39) == 23
    ensures ConstantOf(Cpp(), 36) == 0xa4beea44 && ConstantOf(Cpp(), 37) == 0x4bdecfa9
    ensures ConstantOf(Cpp(), 38) == 0xf6bb4b60 && ConstantOf(Cpp(), 39) == 0xbebfbc70
  {
  }

  lemma CppRow40()
    ensures Cpp().Fits()
    ensures WordOf(40) == 13 && WordOf(41) == 0 && WordOf(42) == 3 && WordOf(43) == 6
    ensures ShiftOf(40) == 4 && ShiftOf(41) == 11 && ShiftOf(42) == 16 && ShiftOf(43) == 23
    ensures ConstantOf(Cpp(), 40) == 0x289b7ec6 && ConstantOf(Cpp(), 41) == 0xeaa127fa
    ensures ConstantOf(Cpp(), 42) == 0xd4ef3085 && ConstantOf(Cpp(), 43) == 0x04881d05
  {
  }

  lemma CppRow44()
    ensures Cpp().Fits()
    ensures WordOf(44) == 9 && WordOf(45) == 12 && WordOf(46) == 15 && WordOf(47) == 2
    ensures ShiftOf(44) == 4 && ShiftOf(45) == 11 && ShiftOf(46) == 16 && ShiftOf(47) == 23
    ensures ConstantOf(Cpp(), 44) == 0xd9d4d039 && ConstantOf(Cpp(), 45) == 0xe6db99e5
    ensures ConstantOf(Cpp(), 46) == 0x1fa27cf8 && ConstantOf(Cpp(), 47) == 0xc4ac5665
  {
  }

  lemma CppRow48()
    ensures Cpp().Fits()
    ensures WordOf(48) == 0 && WordOf(49) == 7 && WordOf(50) == 14 && WordOf(51) == 5
    ensures ShiftOf(48) == 6 && ShiftOf(49) == 10 && ShiftOf(50) == 15 && ShiftOf(51) == 21
    ensures ConstantOf(Cpp(), 48) == 0xf4292244 && ConstantOf(Cpp(), 49) == 0x432aff97
    ensures ConstantOf(Cpp(), 50) == 0xab9423a7 && ConstantOf(Cpp(), 51) == 0xfc93a039
  {
  }

  lemma CppRow52()
    ensures Cpp().Fits()
    ensures WordOf(52) == 12 && WordOf(53) == 3 && WordOf(54) == 10 && WordOf(55) == 1
    ensures ShiftOf(52) == 6 && ShiftOf(53) == 10 && ShiftOf(54) == 15 && ShiftOf(55) == 21
    ensures ConstantOf(Cpp(), 52) == 0x655b59c3 && ConstantOf(Cpp(), 53) == 0x8f0ccc92
    ensures ConstantOf(Cpp(), 54) == 0xffeff47d && ConstantOf(Cpp(), 55) == 0x85845dd1
  {
  }

  lemma CppRow56()
    ensures Cpp().Fits()
    ensures WordOf(56) == 8 && WordOf(57) == 15 && WordOf(58) == 6 && WordOf(59) == 13
    ensures ShiftOf(56) == 6 && ShiftOf(57) == 10 && ShiftOf(58) == 15 && ShiftOf(59) == 21
    ensures ConstantOf(Cpp(), 56) == 0x6fa87e4f && ConstantOf(Cpp(), 57) == 0xfe2ce6e0
    ensures ConstantOf(Cpp(), 58) == 0xa3014314 && ConstantOf(Cpp(), 59) == 0x4e0811a1
  {
  }

  lemma CppRow60()
    ensures Cpp().Fits()
    ensures WordOf(60) == 4 && WordOf(61) == 11 && WordOf(62) == 2 && WordOf(63) == 9
    ensures ShiftOf(60) == 6 && ShiftOf(61) == 10 && ShiftOf(62) == 15 && ShiftOf(63) == 21
    ensures ConstantOf(Cpp(), 60) == 0xf7537e82 && ConstantOf(Cpp(), 61) == 0xbd3af235
    ensures ConstantOf(Cpp(), 62) == 0x2ad7d2bb && ConstantOf(Cpp(), 63) == 0xeb86d391
  {
  }

  method CppRound1<W>(line: LineFunction<W>, x: seq<W>, a0: W, b0: W, c0: W, d0: W, ghost form: Form, ghost s: Vars<W>)
      returns (a: W, b: W, c: W, d: W)
    requires form == Cpp() && form.Fits() && |x| == 16 && Steps(line, form, x, s, 0) == Vars(a0, b0, c0, d0)
    ensures Steps(line, form, x, s, 16) == Vars(a, b, c, d)
  {
    a, b, c, d := a0, b0, c0, d0;
    a := FF(line, a, b, c, d, x[0], 7, 0xd76aa478);
    d := FF(line, d, a, b, c, x[1], 12, 0xe8c7b756);
    c := FF(line, c, d, a, b, x[2], 17, 0x242070db);
    b := FF(line, b, c, d, a, x[3], 22, 0xc1bdceee);
    CppRow0();
    FourLines(line, form, x, s, 0, a, b, c, d);
    a := FF(line, a, b, c, d, x[4], 7, 0xf57c0faf);
    d := FF(line, d, a, b, c, x[5], 12, 0x4787c62a);
    c := FF(line, c, d, a, b, x[6], 17, 0xa8304613);
    b := FF(line, b, c, d, a, x[7], 22, 0xfd469501);
    CppRow4();
    FourLines(line, form, x, s, 4, a, b, c, d);
    a := FF(line, a, b, c, d, x[8], 7, 0x698098d8);
    d := FF(line, d, a, b, c, x[9], 12, 0x8b44f7af);
    c := FF(line, c, d, a, b, x[10], 17, 0xffff5bb1);
    b := FF(line, b, c, d, a, x[11], 22, 0x895cd7be);
    CppRow8();
    FourLines(line, form, x, s, 8, a, b, c, d);
    a := FF(line, a, b, c, d, x[12], 7, 0x6b901122);
    d := FF(line, d, a, b, c, x[13], 12, 0xfd987193);
    c := FF(line, c, d, a, b, x[14], 17, 0xa679438e);
    b := FF(line, b, c, d, a, x[15], 22, 0x49b40821);
    CppRow12();
    FourLines(line, form, x, s, 12, a, b, c, d);
  }

  method CppRound2<W>(line: LineFunction<W>, x: seq<W>, a0: W, b0: W, c0: W, d0: W, ghost form: Form, ghost s: Vars<W>)
      returns (a: W, b: W, c: W, d: W)
    requires form == Cpp() && form.Fits() && |x| == 16 && Steps(line, form, x, s, 16) == Vars(a0, b0, c0, d0)
    ensures Steps(line, form, x, s, 32) == Vars(a, b, c, d)
  {
    a, b, c, d := a0, b0, c0, d0;
    a := GG(line, a, b, c, d, x[1], 5, 0xf61e2562);
    d := GG(line, d, a, b, c, x[6], 9, 0xc040b340);
    c := GG(line, c, d, a, b, x[11], 14, 0x265e5a51);
    b := GG(line, b, c, d, a, x[0], 20, 0xe9b6c7aa);
    CppRow16();
    FourLines(line, form, x, s, 16, a, b, c, d);
    a := GG(line, a, b, c, d, x[5], 5, 0xd62f105d);
    d := GG(line, d, a, b, c, x[10], 9, 0x02441453);
    c := GG(line, c, d, a, b, x[15], 14, 0xd8a1e681);
    b := GG(line, b, c, d, a, x[4], 20, 0xe7d3fbc8);
    CppRow20();
    FourLines(line, form, x, s, 20, a, b, c, d);
    a := GG(line, a, b, c, d, x[9], 5, 0x21e1cde6);
    d := GG(line, d, a, b, c, x[14], 9, 0xc33707d6);
    c := GG(line, c, d, a, b, x[3], 14, 0xf4d50d87);
    b := GG(line, b, c, d, a, x[8], 20, 0x455a14ed);
    CppRow24();
    FourLines(line, form, x, s, 24, a, b, c, d);
    a := GG(line, a, b, c, d, x[13], 5, 0xa9e3e905);
    d := GG(line, d, a, b, c, x[2], 9, 0xfcefa3f8);
    c := GG(line, c, d, a, b, x[7], 14, 0x676f02d9);
    b := GG(line, b, c, d, a, x[12], 20, 0x8d2a4c8a);
    CppRow28();
    FourLines(line, form, x, s, 28, a, b, c, d);
  }

  method CppRound3<W>(line: LineFunction<W>, x: seq<W>, a0: W, b0: W, c0: W, d0: W, ghost form: Form, ghost s: Vars<W>)
      returns (a: W, b: W, c: W, d: W)
    requires form == Cpp() && form.Fits() && |x| == 16 && Steps(line, form, x, s, 32) == Vars(a0, b0, c0, d0)
    ensures Steps(line, form, x, s, 48) == Vars(a, b, c, d)
  {
    a, b, c, d := a0, b0, c0, d0;
    a := HH(line, a, b, c, d, x[5], 4, 0xfffa3942);
    d := HH(line, d, a, b, c, x[8], 11, 0x8771f681);
    c := HH(line, c, d, a, b, x[11], 16, 0x6d9d6122);
    b := HH(line, b, c, d, a, x[14], 23, 0xfde5380c);
    CppRow32();
    FourLines(line, form, x, s, 32, a, b, c, d);
    a := HH(line, a, b, c, d, x[1], 4, 0xa4beea44);
    d := HH(line, d, a, b, c, x[4], 11, 0x4bdecfa9);
    c := HH(line, c, d, a, b, x[7], 16, 0xf6bb4b60);
    b := HH(line, b, c, d, a, x[10], 23, 0xbebfbc70);
    CppRow36();
    FourLines(line, form, x, s, 36, a, b, c, d);
    a := HH(line, a, b, c, d, x[13], 4, 0x289b7ec6);
    d := HH(line, d, a, b, c, x[0], 11, 0xeaa127fa);
    c := HH(line, c, d, a, b, x[3], 16, 0xd4ef3085);
    b := HH(line, b, c, d, a, x[6], 23, 0x04881d05);
    CppRow40();
    FourLines(line, form, x, s, 40, a, b, c, d);
    a := HH(line, a, b, c, d, x[9], 4, 0xd9d4d039);
    d := HH(line, d, a, b, c, x[12], 11, 0xe6db99e5);
    c := HH(line, c, d, a, b, x[15], 16, 0x1fa27cf8);
    b := HH(line, b, c, d, a, x[2], 23, 0xc4ac5665);
    CppRow44();
    FourLines(line, form, x, s, 44, a, b, c, d);
  }

  method CppRound4<W>(line: LineFunction<W>, x: seq<W>, a0: W, b0: W, c0: W, d0: W, ghost form: Form, ghost s: Vars<W>)
      returns (a: W, b: W, c: W, d: W)
    requires form == Cpp() && form.Fits() && |x| == 16 && Steps(line, form, x, s, 48) == Vars(a0, b0, c0, d0)
    ensures Steps(line, form, x, s, 64) == Vars(a, b, c, d)
  {
    a, b, c, d := a0, b0, c0, d0;
    a := II(line, a, b, c, d, x[0], 6, 0xf4292244);
    d := II(line, d, a, b, c, x[7], 10, 0x432aff97);
    c := II(line, c, d, a, b, x[14], 15, 0xab9423a7);
    b := II(line, b, c, d, a, x[5], 21, 0xfc93a039);
    CppRow48();
    FourLines(line, form, x, s, 48, a, b, c, d);
    a := II(line, a, b, c, d, x[12], 6, 0x655b59c3);
    d := II(line, d, a, b, c, x[3], 10, 0x8f0ccc92);
    c := II(line, c, d, a, b, x[10], 15, 0xffeff47d);
    b := II(line, b, c, d, a, x[1], 21, 0x85845dd1);
    CppRow52();
    FourLines(line, form, x, s, 52, a, b, c, d);
    a := II(line, a, b, c, d, x[8], 6, 0x6fa87e4f);
    d := II(line, d, a, b, c, x[15], 10, 0xfe2ce6e0);
    c := II(line, c, d, a, b, x[6], 15, 0xa3014314);
    b := II(line, b, c, d, a, x[13], 21, 0x4e0811a1);
    CppRow56();
    FourLines(line, form, x, s, 56, a, b, c, d);
    a := II(line, a, b, c, d, x[4], 6, 0xf7537e82);
    d := II(line, d, a, b, c, x[11], 10, 0xbd3af235);
    c := II(line, c, d, a, b, x[2], 15, 0x2ad7d2bb);
    b := II(line, b, c, d, a, x[9], 21, 0xeb86d391);
    CppRow60();
    FourLines(line, form, x, s, 60, a, b, c, d);
  }

  // ---------------------------------------------------------------- websocketpp/common/md5.hpp

  lemma HppRow0()
    ensures Hpp().Fits()
    ensures WordOf(0) == 0 && WordOf(1) == 1 && WordOf(2) == 2 && WordOf(3) == 3
    ensures ShiftOf(0) == 7 && ShiftOf(1) == 12 && ShiftOf(2) == 17 && ShiftOf(3) == 22
    ensures ConstantOf(Hpp(), 0) == T_MASK ^ 0x28955b87 && ConstantOf(Hpp(), 1) == T_MASK ^ 0x173848a9
    ensures ConstantOf(Hpp(), 2) == 0x242070db && ConstantOf(Hpp(), 3) == T_MASK ^ 0x3e423111
  {
  }

  lemma HppRow4()
    ensures Hpp().Fits()
    ensures WordOf(4) == 4 && WordOf(5) == 5 && WordOf(6) == 6 && WordOf(7) == 7
    ensures ShiftOf(4) == 7 && ShiftOf(5) == 12 && ShiftOf(6) == 17 && ShiftOf(7) == 22
    ensures ConstantOf(Hpp(), 4) == T_MASK ^ 0x0a83f050 && ConstantOf(Hpp(), 5) == 0x4787c62a
    ensures ConstantOf(Hpp(), 6) == T_MASK ^ 0x57cfb9ec && ConstantOf(Hpp(), 7) == T_MASK ^ 0x02b96afe
  {
  }

  lemma HppRow8()
    ensures Hpp().Fits()
    ensures WordOf(8) == 8 && WordOf(9) == 9 && WordOf(10) == 10 && WordOf(11) == 11
    ensures ShiftOf(8) == 7 && ShiftOf(9) == 12 && ShiftOf(10) == 17 && ShiftOf(11) == 22
    ensures ConstantOf(Hpp(), 8) == 0x698098d8 && ConstantOf(Hpp(), 9) == T_MASK ^ 0x74bb0850
    ensures ConstantOf(Hpp(), 10) == T_MASK ^ 0x0000a44e && ConstantOf(Hpp(), 11) == T_MASK ^ 0x76a32841
  {
  }

  lemma HppRow12()
    ensures Hpp().Fits()
    ensures WordOf(12) == 12 && WordOf(13) == 13 && WordOf(14) == 14 && WordOf(15) == 15
    ensures ShiftOf(12) == 7 && ShiftOf(13) == 12 && ShiftOf(14) == 17 && ShiftOf(15) == 22
    ensures ConstantOf(Hpp(), 12) == 0x6b901122 && ConstantOf(Hpp(), 13) == T_MASK ^ 0x02678e6c
    ensures ConstantOf(Hpp(), 14) == T_MASK ^ 0x5986bc71 && ConstantOf(Hpp(), 15) == 0x49b40821
  {
  }

  lemma HppRow16()
    ensures Hpp().Fits()
    ensures WordOf(16) == 1 && WordOf(17) == 6 && WordOf(18) == 11 && WordOf(19) == 0
    ensures ShiftOf(16) == 5 && ShiftOf(17) == 9 && ShiftOf(18) == 14 && ShiftOf(19) == 20
    ensures ConstantOf(Hpp(), 16) == T_MASK ^ 0x09e1da9d && ConstantOf(Hpp(), 17) == T_MASK ^ 0x3fbf4cbf
    ensures ConstantOf(Hpp(), 18) == 0x265e5a51 && ConstantOf(Hpp(), 19) == T_MASK ^ 0x16493855
  {
  }

  lemma HppRow20()
    ensures Hpp().Fits()
    ensures WordOf(20) == 5 && WordOf(21) == 10 && WordOf(22) == 15 && WordOf(23) == 4
    ensures ShiftOf(20) == 5 && ShiftOf(21) == 9 && ShiftOf(22) == 14 && ShiftOf(23) == 20
    ensures ConstantOf(Hpp(), 20) == T_MASK ^ 0x29d0efa2 && ConstantOf(Hpp(), 21) == 0x02441453
    ensures ConstantOf(Hpp(), 22) == T_MASK ^ 0x275e197e && ConstantOf(Hpp(), 23) == T_MASK ^ 0x182c0437
  {
  }

  lemma HppRow24()
    ensures Hpp().Fits()
    ensures WordOf(24) == 9 && WordOf(25) == 14 && WordOf(26) == 3 && WordOf(27) == 8
    ensures ShiftOf(24) == 5 && ShiftOf(25) == 9 && ShiftOf(26) == 14 && ShiftOf(27) == 20
    ensures ConstantOf(Hpp(), 24) == 0x21e1cde6 && ConstantOf(Hpp(), 25) == T_MASK ^ 0x3cc8f829
    ensures ConstantOf(Hpp(), 26) == T_MASK ^ 0x0b2af278 && ConstantOf(Hpp(), 27) == 0x455a14ed
  {
  }

  lemma HppRow28()
    ensures Hpp().Fits()
    ensures WordOf(28) == 13 && WordOf(29) == 2 && WordOf(30) == 7 && WordOf(31) == 12
    ensures ShiftOf(28) == 5 && ShiftOf(29) == 9 && ShiftOf(30) == 14 && ShiftOf(31) == 20
    ensures ConstantOf(Hpp(), 28) == T_MASK ^ 0x561c16fa && ConstantOf(Hpp(), 29) == T_MASK ^ 0x03105c07
    ensures ConstantOf(Hpp(), 30) == 0x676f02d9 && ConstantOf(Hpp(), 31) == T_MASK ^ 0x72d5b375
  {
  }

  lemma HppRow32()
    ensures Hpp().Fits()
    ensures WordOf(32) == 5 && WordOf(33) == 8 && WordOf(34) == 11 && WordOf(35) == 14
    ensures ShiftOf(32) == 4 && ShiftOf(33) == 11 && ShiftOf(34) == 16 && ShiftOf(35) == 23
    ensures ConstantOf(Hpp(), 32) == T_MASK ^ 0x0005c6bd && ConstantOf(Hpp(), 33) == T_MASK ^ 0x788e097e
    ensures ConstantOf(Hpp(), 34) == 0x6d9d6122 && ConstantOf(Hpp(), 35) == T_MASK ^ 0x021ac7f3
  {
  }

  lemma HppRow36()
    ensures Hpp().Fits()
    ensures WordOf(36) == 1 && WordOf(37) == 4 && WordOf(38) == 7 && WordOf(39) == 10
    ensures ShiftOf(36) == 4 && ShiftOf(37) == 11 && ShiftOf(38) == 16 && ShiftOf(39) == 23
    ensures ConstantOf(Hpp(), 36) == T_MASK ^ 0x5b4115bb && ConstantOf(Hpp(), 37) == 0x4bdecfa9
    ensures ConstantOf(Hpp(), 38) == T_MASK ^ 0x0944b49f && ConstantOf(Hpp(), 39) == T_MASK ^ 0x4140438f
  {
  }

  lemma HppRow40()
    ensures Hpp().Fits()
    ensures WordOf(40) == 13 && WordOf(41) == 0 && WordOf(42) == 3 && WordOf(43) == 6
    ensures ShiftOf(40) == 4 && ShiftOf(41) == 11 && ShiftOf(42) == 16 && ShiftOf(43) == 23
    ensures ConstantOf(Hpp(), 40) == 0x289b7ec6 && ConstantOf(Hpp(), 41) == T_MASK ^ 0x155ed805
    ensures ConstantOf(Hpp(), 42) == T_MASK ^ 0x2b10cf7a && ConstantOf(Hpp(), 43) == 0x04881d05
  {
  }

  lemma HppRow44()
    ensures Hpp().Fits()
    ensures WordOf(44) == 9 && WordOf(45) == 12 && WordOf(46) == 15 && WordOf(47) == 2
    ensures ShiftOf(44) == 4 && ShiftOf(45) == 11 && ShiftOf(46) == 16 && ShiftOf(47) == 23
    ensures ConstantOf(Hpp(), 44) == T_MASK ^ 0x262b2fc6 && ConstantOf(Hpp(), 45) == T_MASK ^ 0x1924661a
    ensures ConstantOf(Hpp(), 46) == 0x1fa27cf8 && ConstantOf(Hpp(), 47) == T_MASK ^ 0x3b53a99a
  {
  }

  lemma HppRow48()
    ensures Hpp().Fits()
    ensures WordOf(48) == 0 && WordOf(49) == 7 && WordOf(50) == 14 && WordOf(51) == 5
    ensures ShiftOf(48) == 6 && ShiftOf(49) == 10 && ShiftOf(50) == 15 && ShiftOf(51) == 21
    ensures ConstantOf(Hpp(), 48) == T_MASK ^ 0x0bd6ddbb && ConstantOf(Hpp(), 49) == 0x432aff97
    ensures ConstantOf(Hpp(), 50) == T_MASK ^ 0x546bdc58 && ConstantOf(Hpp(), 51) == T_MASK ^ 0x036c5fc6
  {
  }

  lemma HppRow52()
    ensures Hpp().Fits()
    ensures WordOf(52) == 12 && WordOf(53) == 3 && WordOf(54) == 10 && WordOf(55) == 1
    ensures ShiftOf(52) == 6 && ShiftOf(53) == 10 && ShiftOf(54) == 15 && ShiftOf(55) == 21
    ensures ConstantOf(Hpp(), 52) == 0x655b59c3 && ConstantOf(Hpp(), 53) == T_MASK ^ 0x70f3336d
    ensures ConstantOf(Hpp(), 54) == T_MASK ^ 0x00100b82 && ConstantOf(Hpp(), 55) == T_MASK ^ 0x7a7ba22e
  {
  }

  lemma HppRow56()
    ensures Hpp().Fits()
    ensures WordOf(56) == 8 && WordOf(57) == 15 && WordOf(58) == 6 && WordOf(59) == 13
    ensures ShiftOf(56) == 6 && ShiftOf(57) == 10 && ShiftOf(58) == 15 && ShiftOf(59) == 21
    ensures ConstantOf(Hpp(), 56) == 0x6fa87e4f && ConstantOf(Hpp(), 57) == T_MASK ^ 0x01d3191f
    ensures ConstantOf(Hpp(), 58) == T_MASK ^ 0x5cfebceb && ConstantOf(Hpp(), 59) == 0x4e0811a1
  {
  }

  lemma HppRow60()
    ensures Hpp().Fits()
    ensures WordOf(60) == 4 && WordOf(61) == 11 && WordOf(62) == 2 && WordOf(63) == 9
    ensures ShiftOf(60) == 6 && ShiftOf(61) == 10 && ShiftOf(62) == 15 && ShiftOf(63) == 21
    ensures ConstantOf(Hpp(), 60) == T_MASK ^ 0x08ac817d && ConstantOf(Hpp(), 61) == T_MASK ^ 0x42c50dca
    ensures ConstantOf(Hpp(), 62) == 0x2ad7d2bb && ConstantOf(Hpp(), 63) == T_MASK ^ 0x14792c6e
  {
  }

  method HppRound1<W>(line: LineFunction<W>, x: seq<W>, a0: W, b0: W, c0: W, d0: W, ghost form: Form, ghost s: Vars<W>)
      returns (a: W, b: W, c: W, d: W)
    requires form == Hpp() && form.Fits() && |x| == 16 && Steps(line, form, x, s, 0) == Vars(a0, b0, c0, d0)
    ensures Steps(line, form, x, s, 16) == Vars(a, b, c, d)
  {
    a, b, c, d := a0, b0, c0, d0;
    a := FF(line, a, b, c, d, x[0], 7, T_MASK ^ 0x28955b87);
    d := FF(line, d, a, b, c, x[1], 12, T_MASK ^ 0x173848a9);
    c := FF(line, c, d, a, b, x[2], 17, 0x242070db);
    b := FF(line, b, c, d, a, x[3], 22, T_MASK ^ 0x3e423111);
    HppRow0();
    FourLines(line, form, x, s, 0, a, b, c, d);
    a := FF(line, a, b, c, d, x[4], 7, T_MASK ^ 0x0a83f050);
    d := FF(line, d, a, b, c, x[5], 12, 0x4787c62a);
    c := FF(line, c, d, a, b, x[6], 17, T_MASK ^ 0x57cfb9ec);
    b := FF(line, b, c, d, a, x[7], 22, T_MASK ^ 0x02b96afe);
    HppRow4();
    FourLines(line, form, x, s, 4, a, b, c, d);
    a := FF(line, a, b, c, d, x[8], 7, 0x698098d8);
    d := FF(line, d, a, b, c, x[9], 12, T_MASK ^ 0x74bb0850);
    c := FF(line, c, d, a, b, x[10], 17, T_MASK ^ 0x0000a44e);
    b := FF(line, b, c, d, a, x[11], 22, T_MASK ^ 0x76a32841);
    HppRow8();
    FourLines(line, form, x, s, 8, a, b, c, d);
    a := FF(line, a, b, c, d, x[12], 7, 0x6b901122);
    d := FF(line, d, a, b, c, x[13], 12, T_MASK ^ 0x02678e6c);
    c := FF(line, c, d, a, b, x[14], 17, T_MASK ^ 0x5986bc71);
    b := FF(line, b, c, d, a, x[15], 22, 0x49b40821);
    HppRow12();
    FourLines(line, form, x, s, 12, a, b, c, d);
  }

  method HppRound2<W>(line: LineFunction<W>, x: seq<W>, a0: W, b0: W, c0: W, d0: W, ghost form: Form, ghost s: Vars<W>)
      returns (a: W, b: W, c: W, d: W)
    requires form == Hpp() && form.Fits() && |x| == 16 && Steps(line, form, x, s, 16) == Vars(a0, b0, c0, d0)
    ensures Steps(line, form, x, s, 32) == Vars(a, b, c, d)
  {
    a, b, c, d := a0, b0, c0, d0;
    a := GG(line, a, b, c, d, x[1], 5, T_MASK ^ 0x09e1da9d);
    d := GG(line, d, a, b, c, x[6], 9, T_MASK ^ 0x3fbf4cbf);
    c := GG(line, c, d, a, b, x[11], 14, 0x265e5a51);
    b := GG(line, b, c, d, a, x[0], 20, T_MASK ^ 0x16493855);
    HppRow16();
    FourLines(line, form, x, s, 16, a, b, c, d);
    a := GG(line, a, b, c, d, x[5], 5, T_MASK ^ 0x29d0efa2);
    d := GG(line, d, a, b, c, x[10], 9, 0x02441453);
    c := GG(line, c, d, a, b, x[15], 14, T_MASK ^ 0x275e197e);
    b := GG(line, b, c, d, a, x[4], 20, T_MASK ^ 0x182c0437);
    HppRow20();
    FourLines(line, form, x, s, 20, a, b, c, d);
    a := GG(line, a, b, c, d, x[9], 5, 0x21e1cde6);
    d := GG(line, d, a, b, c, x[14], 9, T_MASK ^ 0x3cc8f829);
    c := GG(line, c, d, a, b, x[3], 14, T_MASK ^ 0x0b2af278);
    b := GG(line, b, c, d, a, x[8], 20, 0x455a14ed);
    HppRow24();
    FourLines(line, form, x, s, 24, a, b, c, d);
    a := GG(line, a, b, c, d, x[13], 5, T_MASK ^ 0x561c16fa);
    d := GG(line, d, a, b, c, x[2], 9, T_MASK ^ 0x03105c07);
    c := GG(line, c, d, a, b, x[7], 14, 0x676f02d9);
    b := GG(line, b, c, d, a, x[12], 20, T_MASK ^ 0x72d5b375);
    HppRow28();
    FourLines(line, form, x, s, 28, a, b, c, d);
  }

  method HppRound3<W>(line: LineFunction<W>, x: seq<W>, a0: W, b0: W, c0: W, d0: W, ghost form: Form, ghost s: Vars<W>)
      returns (a: W, b: W, c: W, d: W)
    requires form == Hpp() && form.Fits() && |x| == 16 && Steps(line, form, x, s, 32) == Vars(a0, b0, c0, d0)
    ensures Steps(line, form, x, s, 48) == Vars(a, b, c, d)
  {
    a, b, c, d := a0, b0, c0, d0;
    a := HH(line, a, b, c, d, x[5], 4, T_MASK ^ 0x0005c6bd);
    d := HH(line, d, a, b, c, x[8], 11, T_MASK ^ 0x788e097e);
    c := HH(line, c, d, a, b, x[11], 16, 0x6d9d6122);
    b := HH(line, b, c, d, a, x[14], 23, T_MASK ^ 0x021ac7f3);
    HppRow32();
    FourLines(line, form, x, s, 32, a, b, c, d);
    a := HH(line, a, b, c, d, x[1], 4, T_MASK ^ 0x5b4115bb);
    d := HH(line, d, a, b, c, x[4], 11, 0x4bdecfa9);
    c := HH(line, c, d, a, b, x[7], 16, T_MASK ^ 0x0944b49f);
    b := HH(line, b, c, d, a, x[10], 23, T_MASK ^ 0x4140438f);
    HppRow36();
    FourLines(line, form, x, s, 36, a, b, c, d);
    a := HH(line, a, b, c, d, x[13], 4, 0x289b7ec6);
    d := HH(line, d, a, b, c, x[0], 11, T_MASK ^ 0x155ed805);
    c := HH(line, c, d, a, b, x[3], 16, T_MASK ^ 0x2b10cf7a);
    b := HH(line, b, c, d, a, x[6], 23, 0x04881d05);
    HppRow40();
    FourLines(line, form, x, s, 40, a, b, c, d);
    a := HH(line, a, b, c, d, x[9], 4, T_MASK ^ 0x262b2fc6);
    d := HH(line, d, a, b, c, x[12], 11, T_MASK ^ 0x1924661a);
    c := HH(line, c, d, a, b, x[15], 16, 0x1fa27cf8);
    b := HH(line, b, c, d, a, x[2], 23, T_MASK ^ 0x3b53a99a);
    HppRow44();
    FourLines(line, form, x, s, 44, a, b, c, d);
  }

  method HppRound4<W>(line: LineFunction<W>, x: seq<W>, a0: W, b0: W, c0: W, d0: W, ghost form: Form, ghost s: Vars<W>)
      returns (a: W, b: W, c: W, d: W)
    requires form == Hpp() && form.Fits() && |x| == 16 && Steps(line, form, x, s, 48) == Vars(a0, b0, c0, d0)
    ensures Steps(line, form, x, s, 64) == Vars(a, b, c, d)
  {
    a, b, c, d := a0, b0, c0, d0;
    a := II(line, a, b, c, d, x[0], 6, T_MASK ^ 0x0bd6ddbb);
    d := II(line, d, a, b, c, x[7], 10, 0x432aff97);
    c := II(line, c, d, a, b, x[14], 15, T_MASK ^ 0x546bdc58);
    b := II(line, b, c, d, a, x[5], 21, T_MASK ^ 0x036c5fc6);
    HppRow48();
    FourLines(line, form, x, s, 48, a, b, c, d);
    a := II(line, a, b, c, d, x[12], 6, 0x655b59c3);
    d := II(line, d, a, b, c, x[3], 10, T_MASK ^ 0x70f3336d);
    c := II(line, c, d, a, b, x[10], 15, T_MASK ^ 0x00100b82);
    b := II(line, b, c, d, a, x[1], 21, T_MASK ^ 0x7a7ba22e);
    HppRow52();
    FourLines(line, form, x, s, 52, a, b, c, d);
    a := II(line, a, b, c, d, x[8], 6, 0x6fa87e4f);
    d := II(line, d, a, b, c, x[15], 10, T_MASK ^ 0x01d3191f);
    c := II(line, c, d, a, b, x[6], 15, T_MASK ^ 0x5cfebceb);
    b := II(line, b, c, d, a, x[13], 21, 0x4e0811a1);
    HppRow56();
    FourLines(line, form, x, s, 56, a, b, c, d);
    a := II(line, a, b, c, d, x[4], 6, T_MASK ^ 0x08ac817d);
    d := II(line, d, a, b, c, x[11], 10, T_MASK ^ 0x42c50dca);
    c := II(line, c, d, a, b, x[2], 15, 0x2ad7d2bb);
    b := II(line, b, c, d, a, x[9], 21, T_MASK ^ 0x14792c6e);
    HppRow60();
    FourLines(line, form, x, s, 60, a, b, c, d);
  }

  // ---------------------------------------------------------------- the transforms

  /** decode, and the loop over xbuf in md5_process. */
  method Decode(sums: bool, block: bytes) returns (x: seq<bv32>)
    requires |block| == BLOCK
    ensures x == Words(sums, block)
  {
    x := [];
    for i := 0 to 16
      invariant |x| == i && forall k :: 0 <= k < i ==> x[k] == Words(sums, block)[k]
    {
      var j := 4 * i;
      x := x + [Join(sums, Octet(block[j]), Octet(block[j + 1]), Octet(block[j + 2]), Octet(block[j + 3]))];
    }
  }

  /** The 64 lines of MD5::transform. */
  method CppLines<W>(line: LineFunction<W>, x: seq<W>, s: Vars<W>) returns (e: Vars<W>)
    requires |x| == 16
    ensures Cpp().Fits() && e == Steps(line, Cpp(), x, s, 64)
  {
    TablesFit();
    ghost var form := Cpp();
    var a, b, c, d := s.a, s.b, s.c, s.d;
    a, b, c, d := CppRound1(line, x, a, b, c, d, form, s);
    a, b, c, d := CppRound2(line, x, a, b, c, d, form, s);
    a, b, c, d := CppRound3(line, x, a, b, c, d, form, s);
    a, b, c, d := CppRound4(line, x, a, b, c, d, form, s);
    e := Vars(a, b, c, d);
  }

  /** The 64 lines of md5_process. */
  method HppLines<W>(line: LineFunction<W>, x: seq<W>, s: Vars<W>) returns (e: Vars<W>)
    requires |x| == 16
    ensures Hpp().Fits() && e == Steps(line, Hpp(), x, s, 64)
  {
    TablesFit();
    ghost var form := Hpp();
    var a, b, c, d := s.a, s.b, s.c, s.d;
    a, b, c, d := HppRound1(line, x, a, b, c, d, form, s);
    a, b, c, d := HppRound2(line, x, a, b, c, d, form, s);
    a, b, c, d := HppRound3(line, x, a, b, c, d, form, s);
    a, b, c, d := HppRound4(line, x, a, b, c, d, form, s);
    e := Vars(a, b, c, d);
  }

  /** The four additions. */
  method Add(state: State, e: State) returns (r: State)
    ensures r == Sum(state, e)
  {
    r := State(Plus(state.a, e.a), Plus(state.b, e.b), Plus(state.c, e.c), Plus(state.d, e.d));
  }

  lemma CompressIs(form: Form, s: State, block: bytes)
    requires form.Fits() && |block| == BLOCK
    ensures Compress(form, s, block) == Sum(s, ToState(Steps(Line, form, Words(form.sums, block), ToVars(s), 64)))
  {
  }

  /** MD5::transform */
  method Transform(state: State, block: bytes) returns (r: State)
    requires |block| == BLOCK
    ensures Cpp().Fits() && r == Compress(Cpp(), state, block)
  {
    var x := Decode(false, block);
    var e := CppLines(Line, x, ToVars(state));
    CompressIs(Cpp(), state, block);
    r := Add(state, ToState(e));
  }

  /** md5_process */
  method Process(state: State, block: bytes) returns (r: State)
    requires |block| == BLOCK
    ensures Hpp().Fits() && r == Compress(Hpp(), state, block)
  {
    var x := Decode(true, block);
    var e := HppLines(Line, x, ToVars(state));
    CompressIs(Hpp(), state, block);
    r := Add(state, ToState(e));
  }
}
