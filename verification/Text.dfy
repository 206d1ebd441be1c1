/** The parts of the C++ string library that main.cpp leans on; a char stands for one octet. */
module Text {
  import opened Wrappers

  const CRLF := "\r\n"

  // ---------------------------------------------------------------- find

  /** std::string::find: the first place where p occurs in s. */
  function Find(s: string, p: string): (r: Option<nat>)
    ensures r.Some? ==> Occurs(s, p, r.value) && forall j :: 0 <= j < r.value ==> !Occurs(s, p, j)
    ensures r.None? ==> forall j :: 0 <= j <= |s| ==> !Occurs(s, p, j)
  {
    FindFrom(s, p, 0)
  }

  predicate Occurs(s: string, p: string, i: nat) {
    i + |p| <= |s| && s[i..i + |p|] == p
  }

  function FindFrom(s: string, p: string, i: nat): (r: Option<nat>)
    requires i <= |s|
    ensures r.Some? ==> i <= r.value && Occurs(s, p, r.value) && forall j :: i <= j < r.value ==> !Occurs(s, p, j)
    ensures r.None? ==> forall j :: i <= j <= |s| ==> !Occurs(s, p, j)
    decreases |s| - i
  {
    if Occurs(s, p, i) then Some(i) else if i == |s| then None else FindFrom(s, p, i + 1)
  }

  /** A place that has been found stays the first one, whatever is appended. */
  lemma FindExtends(s: string, t: string, p: string)
    requires Find(s, p).Some?
    ensures Find(s + t, p) == Find(s, p)
  {
    var i := Find(s, p).value;
    assert (s + t)[i..i + |p|] == s[i..i + |p|];
    assert Occurs(s + t, p, i);
    forall j | 0 <= j < i ensures !Occurs(s + t, p, j) {
      assert (s + t)[j..j + |p|] == s[j..j + |p|];
      assert !Occurs(s, p, j);
    }
  }

  /** A line without CRLF ends at the first CRLF behind it. */
  lemma LineEnd(line: string, rest: string)
    requires Find(line, CRLF).None?
    ensures Find(line + CRLF + rest, CRLF) == Some(|line|)
  {
    var s := line + CRLF + rest;
    assert s[|line|..|line| + 2] == CRLF;
    assert Occurs(s, CRLF, |line|);
    forall j | 0 <= j < |line| ensures !Occurs(s, CRLF, j) {
      if j + 2 <= |line| {
        assert s[j..j + 2] == line[j..j + 2];
        assert !Occurs(line, CRLF, j);
      } else {
        assert s[j..j + 2][1] == s[|line|] == '\r';
      }
    }
  }

  // ---------------------------------------------------------------- TrimAscii

  predicate IsBlank(c: char) {
    c == ' ' || c == '\t' || c == '\r' || c == '\n'
  }

  predicate AllBlank(s: string) {
    forall i :: 0 <= i < |s| ==> IsBlank(s[i])
  }

  /** find_first_not_of(" \t\r\n"), |s| standing for npos. */
  function FirstNotBlank(s: string, i: nat := 0): (r: nat)
    requires i <= |s|
    ensures i <= r <= |s| && (forall j :: i <= j < r ==> IsBlank(s[j])) && (r < |s| ==> !IsBlank(s[r]))
    decreases |s| - i
  {
    if i == |s| || !IsBlank(s[i]) then i else FirstNotBlank(s, i + 1)
  }

  /** One behind find_last_not_of(" \t\r\n"), 0 standing for npos. */
  function BehindLastNotBlank(s: string, i: nat): (r: nat)
    requires i <= |s|
    ensures r <= i && (forall j :: r <= j < i ==> IsBlank(s[j])) && (r > 0 ==> !IsBlank(s[r - 1]))
  {
    if i == 0 || !IsBlank(s[i - 1]) then i else BehindLastNotBlank(s, i - 1)
  }

  predicate Trimmed(s: string) {
    s != "" ==> !IsBlank(s[0]) && !IsBlank(s[|s| - 1])
  }

  function TrimAscii(s: string): (r: string)
    ensures Trimmed(r)
  {
    var start := FirstNotBlank(s);
    if start == |s| then "" else s[start..BehindLastNotBlank(s, |s|)]
  }

  /** Trimming removes what is blank around a trimmed text and nothing else. */
  lemma TrimUndoesPadding(left: string, s: string, right: string)
    requires AllBlank(left) && Trimmed(s) && AllBlank(right)
    ensures TrimAscii(left + s + right) == s
  {
    var t := left + s + right;
    if s == "" {
      assert forall j :: 0 <= j < |t| ==> IsBlank(t[j]);
    } else {
      assert t[|left|] == s[0] && t[|left| + |s| - 1] == s[|s| - 1];
      assert forall j :: 0 <= j < |left| ==> IsBlank(t[j]);
      assert forall j :: |left| + |s| <= j < |t| ==> IsBlank(t[j]);
      assert FirstNotBlank(t) == |left| && BehindLastNotBlank(t, |t|) == |left| + |s|;
    }
  }

  // ---------------------------------------------------------------- tolower

  function Lower(c: char): char {
    if 'A' <= c <= 'Z' then (c as int + 32) as char else c
  }

  function LowerAscii(s: string): (r: string)
    ensures |r| == |s| && forall i :: 0 <= i < |s| ==> r[i] == Lower(s[i])
  {
    if s == "" then "" else [Lower(s[0])] + LowerAscii(s[1..])
  }

  function SmallLetter(c: char): char {
    if 'A' <= c <= 'Z' then (c as int + 32) as char else c
  }

  /** The same text, with small letters in place of capital ones. */
  predicate InSmall(name: string, small: string) {
    |name| == |small| && forall i :: 0 <= i < |name| ==> small[i] == SmallLetter(name[i])
  }

  // ---------------------------------------------------------------- std::stoull

  const ULLONG_MODULUS: nat := 0x1_0000_0000_0000_0000

  datatype NumberError = InvalidArgument | OutOfRange

  /** isspace in the C locale. */
  predicate IsSpace(c: char) {
    c == ' ' || 9 <= c as int <= 13
  }

  /** The digit a character stands for, or 36. */
  function Digit(c: char): (d: nat)
    ensures d <= 36
  {
    if '0' <= c <= '9' then c as int - '0' as int
    else if 'a' <= c <= 'z' then c as int - 'a' as int + 10
    else if 'A' <= c <= 'Z' then c as int - 'A' as int + 10
    else 36
  }

  predicate AllDigits(s: string, base: nat) {
    forall i :: 0 <= i < |s| ==> Digit(s[i]) < base
  }

  function Value(s: string, base: nat): nat {
    if s == "" then 0 else Value(s[..|s| - 1], base) * base + Digit(s[|s| - 1])
  }

  function SpaceEnd(s: string, i: nat): (e: nat)
    requires i <= |s|
    ensures i <= e <= |s|
    decreases |s| - i
  {
    if i < |s| && IsSpace(s[i]) then SpaceEnd(s, i + 1) else i
  }

  function DigitsEnd(s: string, base: nat, i: nat): (e: nat)
    requires i <= |s|
    ensures i <= e <= |s|
    ensures AllDigits(s[i..e], base) && (e < |s| ==> Digit(s[e]) >= base)
    decreases |s| - i
  {
    if i < |s| && Digit(s[i]) < base then
      var e := DigitsEnd(s, base, i + 1);
      assert s[i..e] == [s[i]] + s[i + 1..e];
      e
    else i
  }

  function PrefixEnd(s: string, base: nat, i: nat): (e: nat)
    requires i <= |s|
    ensures i <= e <= |s|
  {
    if base == 16 && i + 2 < |s| && s[i] == '0' && s[i + 1] in {'x', 'X'} && Digit(s[i + 2]) < 16 then i + 2 else i
  }

  /** The number and how many characters were used; a minus sign negates modulo 2^64. */
  function Stoull(s: string, base: nat): (r: Result<(nat, nat), NumberError>)
    ensures r.Ok? ==> r.value.0 < ULLONG_MODULUS && r.value.1 <= |s|
  {
    var i := SpaceEnd(s, 0);
    var signed := i < |s| && s[i] in {'+', '-'};
    BehindSign(s, base, signed && s[i] == '-', if signed then i + 1 else i)
  }

  function BehindSign(s: string, base: nat, minus: bool, i: nat): (r: Result<(nat, nat), NumberError>)
    requires i <= |s|
    ensures r.Ok? ==> r.value.0 < ULLONG_MODULUS && r.value.1 <= |s|
  {
    var first := PrefixEnd(s, base, i);
    var end := DigitsEnd(s, base, first);
    NumberAt(s[first..end], base, minus, end)
  }

  /** The digits that were found, which end at that place. */
  function NumberAt(digits: string, base: nat, minus: bool, end: nat): (r: Result<(nat, nat), NumberError>)
    ensures r.Ok? ==> r.value.0 < ULLONG_MODULUS && r.value.1 == end
  {
    if digits == "" then Err(InvalidArgument)
    else if Value(digits, base) >= ULLONG_MODULUS then Err(OutOfRange)
    else Ok((Negated(Value(digits, base), minus), end))
  }

  /** Negation of a 64-bit number behind a minus sign. */
  function Negated(v: nat, minus: bool): (n: nat)
    requires v < ULLONG_MODULUS
    ensures n < ULLONG_MODULUS
  {
    if minus then (ULLONG_MODULUS - v) % ULLONG_MODULUS else v
  }

  /** Plain digits are read as the number they write. */
  lemma StoullOfDigits(s: string, base: nat)
    requires s != "" && 2 <= base <= 36 && AllDigits(s, base)
    requires base == 16 ==> |s| < 2 || s[1] !in {'x', 'X'}
    ensures Stoull(s, base) == if Value(s, base) < ULLONG_MODULUS then Ok((Value(s, base), |s|)) else Err(OutOfRange)
  {
    assert Digit(s[0]) < base;
    assert s[0..|s|] == s;
    assert Stoull(s, base) == NumberAt(s, base, false, |s|);
  }

  // ---------------------------------------------------------------- decimal numbers

  predicate Digits(s: string) {
    forall i :: 0 <= i < |s| ==> '0' <= s[i] <= '9'
  }

  function Decimal(n: nat): (s: string)
    ensures s != "" && Digits(s) && Value(s, 10) == n
  {
    var last := (n % 10 + '0' as int) as char;
    if n < 10 then
      assert Value([last], 10) == Value([], 10) * 10 + Digit(last);
      [last]
    else
      var s := Decimal(n / 10) + [last];
      assert s[..|s| - 1] == Decimal(n / 10);
      s
  }

  lemma {:induction false} DecimalLength(n: nat, k: nat)
    requires n < Tens(k) && k > 0
    ensures |Decimal(n)| <= k
  {
    if n >= 10 {
      DecimalLength(n / 10, k - 1);
    }
  }

  function Tens(k: nat): (t: nat)
    ensures t > 0
  {
    if k == 0 then 1 else 10 * Tens(k - 1)
  }
}
