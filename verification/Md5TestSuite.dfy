/** The digest of "abc" in section A.5 of RFC 1321, computed through padding, words, steps and output. */
module Md5TestSuite {
  import opened Wrappers
  import opened Md5
  import opened Md5Compression
  import opened Md5Transform

  const ABC: bytes := [0x61, 0x62, 0x63]

  const START: Vars<bv32> := Vars(0x67452301, 0xefcdab89, 0x98badcfe, 0x10325476)

  // ---------------------------------------------------------------- the padded message

  lemma {:induction false} ZeroOctets(n: nat)
    ensures LittleEndian(0, n) == Zeros(n)
  {
    if n > 0 {
      ZeroOctets(n - 1);
      assert [0] + Zeros(n - 1) == Zeros(n);
    }
  }

  lemma LengthOctets()
    ensures LittleEndian(24, 8) == [24] + Zeros(7)
  {
    ZeroOctets(7);
    assert LittleEndian(24, 8) == [24] + LittleEndian(0, 7);
  }

  lemma AbcPadded()
    ensures |Padded(ABC)| == 64
    ensures Padded(ABC) == ABC + ([0x80] + Zeros(52)) + ([24] + Zeros(7))
  {
    assert PadLength(3) == 53;
    assert 8 * |ABC| % DWORD == 24;
    LengthOctets();
  }

  /** Its words: the text with its one bit, and the length in bits. */
  predicate AbcWords(x: seq<bv32>) {
    && |x| == 16 && x[0] == 0x80636261 && x[14] == 24
    && x[1] == 0 && x[2] == 0 && x[3] == 0 && x[4] == 0 && x[5] == 0 && x[6] == 0 && x[7] == 0
    && x[8] == 0 && x[9] == 0 && x[10] == 0 && x[11] == 0 && x[12] == 0 && x[13] == 0 && x[15] == 0
  }

  lemma WordOfOctets(block: bytes, k: Place, b0: byte, b1: byte, b2: byte, b3: byte)
    requires |block| == BLOCK && block[4 * k] == b0 && block[4 * k + 1] == b1 && block[4 * k + 2] == b2 && block[4 * k + 3] == b3
    ensures Words(false, block)[k] == Join(false, Octet(b0), Octet(b1), Octet(b2), Octet(b3))
  {
  }

  lemma ZeroWord()
    ensures Join(false, Octet(0), Octet(0), Octet(0), Octet(0)) == 0
  {
  }

  lemma AbcWordsAre(block: bytes)
    requires block == ABC + ([0x80] + Zeros(52)) + ([24] + Zeros(7)) && |block| == BLOCK
    ensures AbcWords(Words(false, block))
  {
    var x := Words(false, block);
    forall k: Place | k != 0 && k != 14 ensures x[k] == 0 {
      WordOfOctets(block, k, 0, 0, 0, 0);
      ZeroWord();
    }
    WordOfOctets(block, 0, 0x61, 0x62, 0x63, 0x80);
    WordOfOctets(block, 14, 24, 0, 0, 0);
    TwoWords();
  }

  lemma TwoWords()
    ensures Join(false, Octet(0x61), Octet(0x62), Octet(0x63), Octet(0x80)) == 0x80636261
    ensures Join(false, Octet(24), Octet(0), Octet(0), Octet(0)) == 24
  {
  }

  // ---------------------------------------------------------------- the steps

  lemma Abc0(x: seq<bv32>)
    requires AbcWords(x) && Cpp().Fits() && Steps(Line, Cpp(), x, START, 0) == Vars(0x67452301, 0xefcdab89, 0x98badcfe, 0x10325476)
    ensures Steps(Line, Cpp(), x, START, 4) == Vars(0xd6d117b4, 0x7ad956f2, 0x2f6fbd72, 0x344a8432)
  {
    CppRow0();
    assert Line(0, 0x67452301, 0xefcdab89, 0x98badcfe, 0x10325476, 0x80636261, 7, 0xd76aa478) == 0xd6d117b4;
    assert Line(0, 0x10325476, 0xd6d117b4, 0xefcdab89, 0x98badcfe, 0, 12, 0xe8c7b756) == 0x344a8432;
    assert Line(0, 0x98badcfe, 0x344a8432, 0xd6d117b4, 0xefcdab89, 0, 17, 0x242070db) == 0x2f6fbd72;
    assert Line(0, 0xefcdab89, 0x2f6fbd72, 0x344a8432, 0xd6d117b4, 0, 22, 0xc1bdceee) == 0x7ad956f2;
    FourLines(Line, Cpp(), x, START, 0, 0xd6d117b4, 0x7ad956f2, 0x2f6fbd72, 0x344a8432);
  }

  lemma Abc4(x: seq<bv32>)
    requires AbcWords(x) && Cpp().Fits() && Steps(Line, Cpp(), x, START, 4) == Vars(0xd6d117b4, 0x7ad956f2, 0x2f6fbd72, 0x344a8432)
    ensures Steps(Line, Cpp(), x, START, 8) == Vars(0xc73741ef, 0x928d99f6, 0x207dc67b, 0x8bac3051)
  {
    CppRow4();
    assert Line(0, 0xd6d117b4, 0x7ad956f2, 0x2f6fbd72, 0x344a8432, 0, 7, 0xf57c0faf) == 0xc73741ef;
    assert Line(0, 0x344a8432, 0xc73741ef, 0x7ad956f2, 0x2f6fbd72, 0, 12, 0x4787c62a) == 0x8bac3051;
    assert Line(0, 0x2f6fbd72, 0x8bac3051, 0xc73741ef, 0x7ad956f2, 0, 17, 0xa8304613) == 0x207dc67b;
    assert Line(0, 0x7ad956f2, 0x207dc67b, 0x8bac3051, 0xc73741ef, 0, 22, 0xfd469501) == 0x928d99f6;
    FourLines(Line, Cpp(), x, START, 4, 0xc73741ef, 0x928d99f6, 0x207dc67b, 0x8bac3051);
  }

  lemma Abc8(x: seq<bv32>)
    requires AbcWords(x) && Cpp().Fits() && Steps(Line, Cpp(), x, START, 8) == Vars(0xc73741ef, 0x928d99f6, 0x207dc67b, 0x8bac3051)
    ensures Steps(Line, Cpp(), x, START, 12) == Vars(0x854b3712, 0x5ed49596, 0x3020401c, 0x74e2f284)
  {
    CppRow8();
    assert Line(0, 0xc73741ef, 0x928d99f6, 0x207dc67b, 0x8bac3051, 0, 7, 0x698098d8) == 0x854b3712;
    assert Line(0, 0x8bac3051, 0x854b3712, 0x928d99f6, 0x207dc67b, 0, 12, 0x8b44f7af) == 0x74e2f284;
    assert Line(0, 0x207dc67b, 0x74e2f284, 0x854b3712, 0x928d99f6, 0, 17, 0xffff5bb1) == 0x3020401c;
    assert Line(0, 0x928d99f6, 0x3020401c, 0x74e2f284, 0x854b3712, 0, 22, 0x895cd7be) == 0x5ed49596;
    FourLines(Line, Cpp(), x, START, 8, 0x854b3712, 0x5ed49596, 0x3020401c, 0x74e2f284);
  }

  lemma Abc12(x: seq<bv32>)
    requires AbcWords(x) && Cpp().Fits() && Steps(Line, Cpp(), x, START, 12) == Vars(0x854b3712, 0x5ed49596, 0x3020401c, 0x74e2f284)
    ensures Steps(Line, Cpp(), x, START, 16) == Vars(0xdda9b9a6, 0x72aff2e0, 0xe396856b, 0xa1051895)
  {
    CppRow12();
    assert Line(0, 0x854b3712, 0x5ed49596, 0x3020401c, 0x74e2f284, 0, 7, 0x6b901122) == 0xdda9b9a6;
    assert Line(0, 0x74e2f284, 0xdda9b9a6, 0x5ed49596, 0x3020401c, 0, 12, 0xfd987193) == 0xa1051895;
    assert Line(0, 0x3020401c, 0xa1051895, 0xdda9b9a6, 0x5ed49596, 0x00000018, 17, 0xa679438e) == 0xe396856b;
    assert Line(0, 0x5ed49596, 0xe396856b, 0xa1051895, 0xdda9b9a6, 0, 22, 0x49b40821) == 0x72aff2e0;
    FourLines(Line, Cpp(), x, START, 12, 0xdda9b9a6, 0x72aff2e0, 0xe396856b, 0xa1051895);
  }

  lemma Abc16(x: seq<bv32>)
    requires AbcWords(x) && Cpp().Fits() && Steps(Line, Cpp(), x, START, 16) == Vars(0xdda9b9a6, 0x72aff2e0, 0xe396856b, 0xa1051895)
    ensures Steps(Line, Cpp(), x, START, 20) == Vars(0x3e9e9126, 0xb5b204e4, 0xe25e1652, 0x4a1d804e)
  {
    CppRow16();
    assert Line(1, 0xdda9b9a6, 0x72aff2e0, 0xe396856b, 0xa1051895, 0, 5, 0xf61e2562) == 0x3e9e9126;
    assert Line(1, 0xa1051895, 0x3e9e9126, 0x72aff2e0, 0xe396856b, 0, 9, 0xc040b340) == 0x4a1d804e;
    assert Line(1, 0xe396856b, 0x4a1d804e, 0x3e9e9126, 0x72aff2e0, 0, 14, 0x265e5a51) == 0xe25e1652;
    assert Line(1, 0x72aff2e0, 0xe25e1652, 0x4a1d804e, 0x3e9e9126, 0x80636261, 20, 0xe9b6c7aa) == 0xb5b204e4;
    FourLines(Line, Cpp(), x, START, 16, 0x3e9e9126, 0xb5b204e4, 0xe25e1652, 0x4a1d804e);
  }

  lemma Abc20(x: seq<bv32>)
    requires AbcWords(x) && Cpp().Fits() && Steps(Line, Cpp(), x, START, 20) == Vars(0x3e9e9126, 0xb5b204e4, 0xe25e1652, 0x4a1d804e)
    ensures Steps(Line, Cpp(), x, START, 24) == Vars(0x59a8ffda, 0x47092c07, 0xabfc7920, 0x6d002f1e)
  {
    CppRow20();
    assert Line(1, 0x3e9e9126, 0xb5b204e4, 0xe25e1652, 0x4a1d804e, 0, 5, 0xd62f105d) == 0x59a8ffda;
    assert Line(1, 0x4a1d804e, 0x59a8ffda, 0xb5b204e4, 0xe25e1652, 0, 9, 0x02441453) == 0x6d002f1e;
    assert Line(1, 0xe25e1652, 0x6d002f1e, 0x59a8ffda, 0xb5b204e4, 0, 14, 0xd8a1e681) == 0xabfc7920;
    assert Line(1, 0xb5b204e4, 0xabfc7920, 0x6d002f1e, 0x59a8ffda, 0, 20, 0xe7d3fbc8) == 0x47092c07;
    FourLines(Line, Cpp(), x, START, 20, 0x59a8ffda, 0x47092c07, 0xabfc7920, 0x6d002f1e);
  }

  lemma Abc24(x: seq<bv32>)
    requires AbcWords(x) && Cpp().Fits() && Steps(Line, Cpp(), x, START, 24) == Vars(0x59a8ffda, 0x47092c07, 0xabfc7920, 0x6d002f1e)
    ensures Steps(Line, Cpp(), x, START, 28) == Vars(0xb7f268cf, 0x786acb8f, 0xfe1623b1, 0x09388eff)
  {
    CppRow24();
    assert Line(1, 0x59a8ffda, 0x47092c07, 0xabfc7920, 0x6d002f1e, 0, 5, 0x21e1cde6) == 0xb7f268cf;
    assert Line(1, 0x6d002f1e, 0xb7f268cf, 0x47092c07, 0xabfc7920, 0x00000018, 9, 0xc33707d6) == 0x09388eff;
    assert Line(1, 0xabfc7920, 0x09388eff, 0xb7f268cf, 0x47092c07, 0, 14, 0xf4d50d87) == 0xfe1623b1;
    assert Line(1, 0x47092c07, 0xfe1623b1, 0x09388eff, 0xb7f268cf, 0, 20, 0x455a14ed) == 0x786acb8f;
    FourLines(Line, Cpp(), x, START, 24, 0xb7f268cf, 0x786acb8f, 0xfe1623b1, 0x09388eff);
  }

  lemma Abc28(x: seq<bv32>)
    requires AbcWords(x) && Cpp().Fits() && Steps(Line, Cpp(), x, START, 28) == Vars(0xb7f268cf, 0x786acb8f, 0xfe1623b1, 0x09388eff)
    ensures Steps(Line, Cpp(), x, START, 32) == Vars(0x790a77fb, 0x726342d3, 0xa62884aa, 0x9f47e4f8)
  {
    CppRow28();
    assert Line(1, 0xb7f268cf, 0x786acb8f, 0xfe1623b1, 0x09388eff, 0, 5, 0xa9e3e905) == 0x790a77fb;
    assert Line(1, 0x09388eff, 0x790a77fb, 0x786acb8f, 0xfe1623b1, 0, 9, 0xfcefa3f8) == 0x9f47e4f8;
    assert Line(1, 0xfe1623b1, 0x9f47e4f8, 0x790a77fb, 0x786acb8f, 0, 14, 0x676f02d9) == 0xa62884aa;
    assert Line(1, 0x786acb8f, 0xa62884aa, 0x9f47e4f8, 0x790a77fb, 0, 20, 0x8d2a4c8a) == 0x726342d3;
    FourLines(Line, Cpp(), x, START, 28, 0x790a77fb, 0x726342d3, 0xa62884aa, 0x9f47e4f8);
  }

  lemma Abc32(x: seq<bv32>)
    requires AbcWords(x) && Cpp().Fits() && Steps(Line, Cpp(), x, START, 32) == Vars(0x790a77fb, 0x726342d3, 0xa62884aa, 0x9f47e4f8)
    ensures Steps(Line, Cpp(), x, START, 36) == Vars(0xb3707ebf, 0x3b0875c7, 0x8d212ff5, 0x60127b2e)
  {
    CppRow32();
    assert Line(2, 0x790a77fb, 0x726342d3, 0xa62884aa, 0x9f47e4f8, 0, 4, 0xfffa3942) == 0xb3707ebf;
    assert Line(2, 0x9f47e4f8, 0xb3707ebf, 0x726342d3, 0xa62884aa, 0, 11, 0x8771f681) == 0x60127b2e;
    assert Line(2, 0xa62884aa, 0x60127b2e, 0xb3707ebf, 0x726342d3, 0, 16, 0x6d9d6122) == 0x8d212ff5;
    assert Line(2, 0x726342d3, 0x8d212ff5, 0x60127b2e, 0xb3707ebf, 0x00000018, 23, 0xfde5380c) == 0x3b0875c7;
    FourLines(Line, Cpp(), x, START, 32, 0xb3707ebf, 0x3b0875c7, 0x8d212ff5, 0x60127b2e);
  }

  lemma Abc36(x: seq<bv32>)
    requires AbcWords(x) && Cpp().Fits() && Steps(Line, Cpp(), x, START, 36) == Vars(0xb3707ebf, 0x3b0875c7, 0x8d212ff5, 0x60127b2e)
    ensures Steps(Line, Cpp(), x, START, 40) == Vars(0x21b117b9, 0x5a2f5ea5, 0x3575227e, 0x6e7429d5)
  {
    CppRow36();
    assert Line(2, 0xb3707ebf, 0x3b0875c7, 0x8d212ff5, 0x60127b2e, 0, 4, 0xa4beea44) == 0x21b117b9;
    assert Line(2, 0x60127b2e, 0x21b117b9, 0x3b0875c7, 0x8d212ff5, 0, 11, 0x4bdecfa9) == 0x6e7429d5;
    assert Line(2, 0x8d212ff5, 0x6e7429d5, 0x21b117b9, 0x3b0875c7, 0, 16, 0xf6bb4b60) == 0x3575227e;
    assert Line(2, 0x3b0875c7, 0x3575227e, 0x6e7429d5, 0x21b117b9, 0, 23, 0xbebfbc70) == 0x5a2f5ea5;
    FourLines(Line, Cpp(), x, START, 36, 0x21b117b9, 0x5a2f5ea5, 0x3575227e, 0x6e7429d5);
  }

  lemma Abc40(x: seq<bv32>)
    requires AbcWords(x) && Cpp().Fits() && Steps(Line, Cpp(), x, START, 40) == Vars(0x21b117b9, 0x5a2f5ea5, 0x3575227e, 0x6e7429d5)
    ensures Steps(Line, Cpp(), x, START, 44) == Vars(0x11de1779, 0x4c6124f4, 0x31c465ca, 0xfadcaa38)
  {
    CppRow40();
    assert Line(2, 0x21b117b9, 0x5a2f5ea5, 0x3575227e, 0x6e7429d5, 0, 4, 0x289b7ec6) == 0x11de1779;
    assert Line(2, 0x6e7429d5, 0x11de1779, 0x5a2f5ea5, 0x3575227e, 0x80636261, 11, 0xeaa127fa) == 0xfadcaa38;
    assert Line(2, 0x3575227e, 0xfadcaa38, 0x11de1779, 0x5a2f5ea5, 0, 16, 0xd4ef3085) == 0x31c465ca;
    assert Line(2, 0x5a2f5ea5, 0x31c465ca, 0xfadcaa38, 0x11de1779, 0, 23, 0x04881d05) == 0x4c6124f4;
    FourLines(Line, Cpp(), x, START, 40, 0x11de1779, 0x4c6124f4, 0x31c465ca, 0xfadcaa38);
  }

  lemma Abc44(x: seq<bv32>)
    requires AbcWords(x) && Cpp().Fits() && Steps(Line, Cpp(), x, START, 44) == Vars(0x11de1779, 0x4c6124f4, 0x31c465ca, 0xfadcaa38)
    ensures Steps(Line, Cpp(), x, START, 48) == Vars(0x7f2e507b, 0x7beb9700, 0x8fae6399, 0x99d9679d)
  {
    CppRow44();
    assert Line(2, 0x11de1779, 0x4c6124f4, 0x31c465ca, 0xfadcaa38, 0, 4, 0xd9d4d039) == 0x7f2e507b;
    assert Line(2, 0xfadcaa38, 0x7f2e507b, 0x4c6124f4, 0x31c465ca, 0, 11, 0xe6db99e5) == 0x99d9679d;
    assert Line(2, 0x31c465ca, 0x99d9679d, 0x7f2e507b, 0x4c6124f4, 0, 16, 0x1fa27cf8) == 0x8fae6399;
    assert Line(2, 0x4c6124f4, 0x8fae6399, 0x99d9679d, 0x7f2e507b, 0, 23, 0xc4ac5665) == 0x7beb9700;
    FourLines(Line, Cpp(), x, START, 44, 0x7f2e507b, 0x7beb9700, 0x8fae6399, 0x99d9679d);
  }

  lemma Abc48(x: seq<bv32>)
    requires AbcWords(x) && Cpp().Fits() && Steps(Line, Cpp(), x, START, 48) == Vars(0x7f2e507b, 0x7beb9700, 0x8fae6399, 0x99d9679d)
    ensures Steps(Line, Cpp(), x, START, 52) == Vars(0x7b201df8, 0x8bf025c4, 0xb298cefd, 0xf4e8e96e)
  {
    CppRow48();
    assert Line(3, 0x7f2e507b, 0x7beb9700, 0x8fae6399, 0x99d9679d, 0x80636261, 6, 0xf4292244) == 0x7b201df8;
    assert Line(3, 0x99d9679d, 0x7b201df8, 0x7beb9700, 0x8fae6399, 0, 10, 0x432aff97) == 0xf4e8e96e;
    assert Line(3, 0x8fae6399, 0xf4e8e96e, 0x7b201df8, 0x7beb9700, 0x00000018, 15, 0xab9423a7) == 0xb298cefd;
    assert Line(3, 0x7beb9700, 0xb298cefd, 0xf4e8e96e, 0x7b201df8, 0, 21, 0xfc93a039) == 0x8bf025c4;
    FourLines(Line, Cpp(), x, START, 48, 0x7b201df8, 0x8bf025c4, 0xb298cefd, 0xf4e8e96e);
  }

  lemma Abc52(x: seq<bv32>)
    requires AbcWords(x) && Cpp().Fits() && Steps(Line, Cpp(), x, START, 52) == Vars(0x7b201df8, 0x8bf025c4, 0xb298cefd, 0xf4e8e96e)
    ensures Steps(Line, Cpp(), x, START, 56) == Vars(0x06cc5e8a, 0x3bfa2c27, 0x7d632dd0, 0x5b0d97aa)
  {
    CppRow52();
    assert Line(3, 0x7b201df8, 0x8bf025c4, 0xb298cefd, 0xf4e8e96e, 0, 6, 0x655b59c3) == 0x06cc5e8a;
    assert Line(3, 0xf4e8e96e, 0x06cc5e8a, 0x8bf025c4, 0xb298cefd, 0, 10, 0x8f0ccc92) == 0x5b0d97aa;
    assert Line(3, 0xb298cefd, 0x5b0d97aa, 0x06cc5e8a, 0x8bf025c4, 0, 15, 0xffeff47d) == 0x7d632dd0;
    assert Line(3, 0x8bf025c4, 0x7d632dd0, 0x5b0d97aa, 0x06cc5e8a, 0, 21, 0x85845dd1) == 0x3bfa2c27;
    FourLines(Line, Cpp(), x, START, 52, 0x06cc5e8a, 0x3bfa2c27, 0x7d632dd0, 0x5b0d97aa);
  }

  lemma Abc56(x: seq<bv32>)
    requires AbcWords(x) && Cpp().Fits() && Steps(Line, Cpp(), x, START, 56) == Vars(0x06cc5e8a, 0x3bfa2c27, 0x7d632dd0, 0x5b0d97aa)
    ensures Steps(Line, Cpp(), x, START, 60) == Vars(0x7f81cc35, 0x7327d604, 0x4f9dbe3f, 0x094454ab)
  {
    CppRow56();
    assert Line(3, 0x06cc5e8a, 0x3bfa2c27, 0x7d632dd0, 0x5b0d97aa, 0, 6, 0x6fa87e4f) == 0x7f81cc35;
    assert Line(3, 0x5b0d97aa, 0x7f81cc35, 0x3bfa2c27, 0x7d632dd0, 0, 10, 0xfe2ce6e0) == 0x094454ab;
    assert Line(3, 0x7d632dd0, 0x094454ab, 0x7f81cc35, 0x3bfa2c27, 0, 15, 0xa3014314) == 0x4f9dbe3f;
    assert Line(3, 0x3bfa2c27, 0x4f9dbe3f, 0x094454ab, 0x7f81cc35, 0, 21, 0x4e0811a1) == 0x7327d604;
    FourLines(Line, Cpp(), x, START, 56, 0x7f81cc35, 0x7327d604, 0x4f9dbe3f, 0x094454ab);
  }

  lemma Abc60(x: seq<bv32>)
    requires AbcWords(x) && Cpp().Fits() && Steps(Line, Cpp(), x, START, 60) == Vars(0x7f81cc35, 0x7327d604, 0x4f9dbe3f, 0x094454ab)
    ensures Steps(Line, Cpp(), x, START, 64) == Vars(0x310ade8f, 0xc08226b3, 0xe484b9d8, 0x624d8cb2)
  {
    CppRow60();
    assert Line(3, 0x7f81cc35, 0x7327d604, 0x4f9dbe3f, 0x094454ab, 0, 6, 0xf7537e82) == 0x310ade8f;
    assert Line(3, 0x094454ab, 0x310ade8f, 0x7327d604, 0x4f9dbe3f, 0, 10, 0xbd3af235) == 0x624d8cb2;
    assert Line(3, 0x4f9dbe3f, 0x624d8cb2, 0x310ade8f, 0x7327d604, 0, 15, 0x2ad7d2bb) == 0xe484b9d8;
    assert Line(3, 0x7327d604, 0xe484b9d8, 0x624d8cb2, 0x310ade8f, 0, 21, 0xeb86d391) == 0xc08226b3;
    FourLines(Line, Cpp(), x, START, 60, 0x310ade8f, 0xc08226b3, 0xe484b9d8, 0x624d8cb2);
  }

  lemma AbcSteps(x: seq<bv32>)
    requires AbcWords(x) && Cpp().Fits()
    ensures Steps(Line, Cpp(), x, START, 64) == Vars(0x310ade8f, 0xc08226b3, 0xe484b9d8, 0x624d8cb2)
  {
    Abc0(x);
    Abc4(x);
    Abc8(x);
    Abc12(x);
    Abc16(x);
    Abc20(x);
    Abc24(x);
    Abc28(x);
    Abc32(x);
    Abc36(x);
    Abc40(x);
    Abc44(x);
    Abc48(x);
    Abc52(x);
    Abc56(x);
    Abc60(x);
  }

  // ---------------------------------------------------------------- the digest

  lemma AbcCompressed(block: bytes)
    requires |block| == BLOCK && AbcWords(Words(false, block))
    ensures Cpp().Fits() && Compress(Cpp(), IV_CPP, block) == State(0x98500190, 0xb04fd23c, 0x7d3f96d6, 0x727fe128)
  {
    TablesFit();
    AbcSteps(Words(false, block));
    CompressIs(Cpp(), IV_CPP, block);
  }

  lemma LowOctet(b: byte, rest: nat, n: nat)
    ensures LittleEndian(b as nat + 0x100 * rest, n + 1) == [b] + LittleEndian(rest, n)
  {
  }

  lemma Octets(b0: byte, b1: byte, b2: byte, b3: byte)
    ensures LittleEndian(b0 as nat + 0x100 * (b1 as nat + 0x100 * (b2 as nat + 0x100 * b3 as nat)), 4) == [b0, b1, b2, b3]
  {
    LowOctet(b3, 0, 0);
    LowOctet(b2, b3 as nat, 1);
    LowOctet(b1, b2 as nat + 0x100 * b3 as nat, 2);
    LowOctet(b0, b1 as nat + 0x100 * (b2 as nat + 0x100 * b3 as nat), 3);
  }

  lemma AbcOutput()
    ensures Encode(State(0x98500190, 0xb04fd23c, 0x7d3f96d6, 0x727fe128)) == [
              0x90, 0x01, 0x50, 0x98, 0x3c, 0xd2, 0x4f, 0xb0,
              0xd6, 0x96, 0x3f, 0x7d, 0x28, 0xe1, 0x7f, 0x72]
  {
    Octets(0x90, 0x01, 0x50, 0x98);
    Octets(0x3c, 0xd2, 0x4f, 0xb0);
    Octets(0xd6, 0x96, 0x3f, 0x7d);
    Octets(0x28, 0xe1, 0x7f, 0x72);
  }

  lemma OneBlock<C>(h: Hash<C>, m: bytes)
    requires |Padded(m)| == BLOCK
    ensures Digest(h, m) == h.output(h.compress(h.iv, Padded(m)))
  {
    var s := Padded(m);
    assert s[BLOCK * 0..BLOCK * 1] == s;
    assert Fold(h, s, 1) == h.compress(Fold(h, s, 0), s[BLOCK * 0..BLOCK * 1]);
  }

  /** MD5 ("abc") = 900150983cd24fb0d6963f7d28e17f72, by both codes. */
  lemma AbcDigest()
    ensures Cpp().Fits() && Hpp().Fits()
    ensures Digest(Primitives(Cpp(), IV_CPP), ABC) == Digest(Primitives(Hpp(), IV_HPP), ABC) == [
              0x90, 0x01, 0x50, 0x98, 0x3c, 0xd2, 0x4f, 0xb0,
              0xd6, 0x96, 0x3f, 0x7d, 0x28, 0xe1, 0x7f, 0x72]
  {
    SameDigest(ABC);
    AbcPadded();
    AbcWordsAre(Padded(ABC));
    AbcCompressed(Padded(ABC));
    OneBlock(Primitives(Cpp(), IV_CPP), ABC);
    AbcOutput();
  }
}
