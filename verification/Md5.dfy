/**
 Two streaming implementations of MD5, misc/md5.cpp and websocketpp/common/md5.hpp. Their buffering,
 padding and bit counting differ; both compute the digest of RFC 1321 for every message and every way
 of cutting it into pieces. What they share, one block's compression and the output of the chaining
 state, is a parameter here; Md5Compression fills it in.
 */
module Md5 {
  import opened Wrappers

  const WORD: nat := 0x1_0000_0000
  const DWORD: nat := 0x1_0000_0000_0000_0000
  const BLOCK: nat := 64

  // ---------------------------------------------------------------- RFC 1321

  /** The primitives: the initial chaining state, the compression of one block, the output of the state. */
  datatype Hash<!C> = Hash(iv: C, compress: (C, bytes) -> C, output: C -> bytes)

  /** Sections 3.3 and 3.4: the first n blocks of s compressed in order. */
  function Fold<C>(h: Hash<C>, s: bytes, n: nat): C
    requires BLOCK * n <= |s|
  {
    if n == 0 then h.iv else h.compress(Fold(h, s, n - 1), s[BLOCK * (n - 1)..BLOCK * n])
  }

  function Zeros(n: nat): (s: bytes)
    ensures |s| == n
  {
    seq(n, _ => 0)
  }

  /** A number as n octets, low-order first. */
  function LittleEndian(v: nat, n: nat): (s: bytes)
    ensures |s| == n
  {
    if n == 0 then [] else [(v % 256) as byte] + LittleEndian(v / 256, n - 1)
  }

  /** Section 3.1: a one bit and then as many zeros as bring the length to 56 modulo 64 octets. */
  function PadLength(length: nat): (n: nat)
    ensures 1 <= n <= 64 && (length + n) % BLOCK == 56
  {
    PadLengthIs56(length);
    1 + (55 - length) % 64
  }

  lemma PadLengthIs56(length: nat)
    ensures (length + (1 + (55 - length) % 64)) % 64 == 56
  {
  }

  function Padding(n: nat): (s: bytes)
    requires n > 0
    ensures |s| == n
  {
    [0x80] + Zeros(n - 1)
  }

  /** Sections 3.1 and 3.2: the padded message, with the length in bits modulo 2^64. */
  function Padded(m: bytes): (s: bytes)
    ensures |s| % BLOCK == 0
  {
    var padded := m + Padding(PadLength(|m|));
    assert |padded| % BLOCK == 56;
    EightMore(|padded|);
    padded + LittleEndian(8 * |m| % DWORD, 8)
  }

  lemma EightMore(n: nat)
    requires n % 64 == 56
    ensures (n + 8) % 64 == 0
  {
  }

  /** Section 3.5. */
  function Digest<C>(h: Hash<C>, m: bytes): bytes {
    h.output(Fold(h, Padded(m), |Padded(m)| / BLOCK))
  }

  // ---------------------------------------------------------------- what that is, octet by octet

  /** The blocks from the front, one after the other. */
  function Chain<C>(h: Hash<C>, c: C, s: bytes): C
    decreases |s|
  {
    if |s| < 64 then c else Chain(h, h.compress(c, s[..64]), s[64..])
  }

  lemma {:induction false} ChainAppend<C>(h: Hash<C>, c: C, s: bytes, block: bytes)
    requires |s| % 64 == 0 && |block| == 64
    ensures Chain(h, c, s + block) == h.compress(Chain(h, c, s), block)
    decreases |s|
  {
    var t := s + block;
    if s == [] {
      assert t == block && t[..64] == block && |t[64..]| == 0;
    } else {
      ChainAppend(h, h.compress(c, s[..64]), s[64..], block);
      assert t[..64] == s[..64] && t[64..] == s[64..] + block;
    }
  }

  lemma {:induction false} FoldIsChain<C>(h: Hash<C>, s: bytes, n: nat)
    requires 64 * n <= |s|
    ensures Fold(h, s, n) == Chain(h, h.iv, s[..64 * n])
  {
    if n > 0 {
      FoldIsChain(h, s, n - 1);
      ChainAppend(h, h.iv, s[..64 * (n - 1)], s[64 * (n - 1)..64 * n]);
      assert s[..64 * (n - 1)] + s[64 * (n - 1)..64 * n] == s[..64 * n];
    }
  }

  /** The number that octets write, the lowest first. */
  function FromLittleEndian(s: bytes): nat {
    if s == [] then 0 else s[0] as nat + 256 * FromLittleEndian(s[1..])
  }

  lemma {:induction false} LittleEndianReads(v: nat, n: nat)
    requires v < Pow256(n)
    ensures FromLittleEndian(LittleEndian(v, n)) == v
  {
    if n > 0 {
      LittleEndianReads(v / 256, n - 1);
    }
  }

  lemma EightLittle(v: nat)
    requires v < DWORD
    ensures FromLittleEndian(LittleEndian(v, 8)) == v
  {
    assert Pow256(8) == 256 * (256 * (256 * (256 * Pow256(4))));
    assert Pow256(4) == 256 * (256 * (256 * (256 * Pow256(0))));
    LittleEndianReads(v, 8);
  }

  /** The digest, with the padded message spelled out: 0x80, the fewest zeros, and the length in bits in eight
      octets with the lowest first; whole blocks are compressed from the front. */
  lemma DigestExactly<C>(h: Hash<C>, m: bytes)
    ensures var p := Padded(m);
            && |p| % 64 == 0 && |m| + 9 <= |p| <= |m| + 72
            && p[..|m|] == m && p[|m|] == 0x80 && (forall i :: |m| < i < |p| - 8 ==> p[i] == 0)
            && FromLittleEndian(p[|p| - 8..]) == 8 * |m| % 0x1_0000_0000_0000_0000
            && Digest(h, m) == h.output(Chain(h, h.iv, p))
  {
    var p, bits := Padded(m), LittleEndian(8 * |m| % DWORD, 8);
    assert p[|p| - 8..] == bits;
    EightLittle(8 * |m| % DWORD);
    FoldIsChain(h, p, |p| / 64);
    assert p[..64 * (|p| / 64)] == p;
  }

  // ---------------------------------------------------------------- the two-word bit counter

  /** count[0] and count[1] hold the number of bits modulo 2^64. */
  predicate Counts(count0: nat, count1: nat, length: nat) {
    count0 < WORD && count1 < WORD && count0 + WORD * count1 == 8 * length % DWORD
  }

  lemma CountIndex(count0: nat, count1: nat, length: nat)
    requires Counts(count0, count1, length)
    ensures count0 / 8 % 64 == length % 64
  {
    var q := 8 * length / DWORD;
    assert 8 * length == DWORD * q + WORD * count1 + count0;
    var t := 0x80_0000 * (WORD * q + count1);
    assert 8 * length == 8 * (64 * t) + count0;
    assert count0 / 8 == length - 64 * t;
    SameMod64(length, t);
  }

  lemma SameMod64(length: nat, t: nat)
    requires 64 * t <= length
    ensures (length - 64 * t) % 64 == length % 64
  {
  }

  /** Adding n octets: the low word, its carry, and the part of 8n that lies above 32 bits. */
  lemma CountAdds(count0: nat, count1: nat, length: nat, n: nat)
    requires Counts(count0, count1, length)
    ensures var low := 8 * n % WORD;
            var count0' := (count0 + low) % WORD;
            var carry := if count0' < low then 1 else 0;
            Counts(count0', ((count1 + carry) % WORD + n / 0x2000_0000) % WORD, length + n)
  {
    var low, high := 8 * n % WORD, n / 0x2000_0000;
    assert 8 * n == WORD * high + low;
    var count0' := (count0 + low) % WORD;
    var carry := if count0' < low then 1 else 0;
    assert count0 + low == count0' + WORD * carry;
    InnerMod(count1 + carry, high);
    CountWords(count0, count1, length, n, low, high, count0', carry);
  }

  lemma CountWords(count0: nat, count1: nat, length: nat, n: nat, low: nat, high: nat, count0': nat, carry: nat)
    requires Counts(count0, count1, length) && 8 * n == WORD * high + low
    requires count0 + low == count0' + WORD * carry && count0' < WORD
    ensures Counts(count0', (count1 + carry + high) % WORD, length + n)
  {
    var sum := count1 + carry + high;
    var q := 8 * length / DWORD;
    assert 8 * (length + n) == DWORD * q + WORD * sum + count0';
    var sq, sr := sum / WORD, sum % WORD;
    assert sum == WORD * sq + sr;
    CountMod(8 * (length + n), q + sq, WORD * sr + count0');
  }

  lemma CountMod(v: nat, q: nat, r: nat)
    requires v == DWORD * q + r && r < DWORD
    ensures v % DWORD == r
  {
  }

  // ---------------------------------------------------------------- what both classes keep

  /** The chaining state and the buffer after message m: n whole blocks are folded, the rest is kept. */
  ghost predicate Absorbed<C>(h: Hash<C>, state: C, buffer: bytes, m: bytes, n: nat) {
    && |buffer| == BLOCK
    && BLOCK * n <= |m| < BLOCK * n + BLOCK
    && state == Fold(h, m, n)
    && buffer[..|m| - BLOCK * n] == m[BLOCK * n..]
  }

  /** Folded blocks do not depend on what comes later. */
  lemma {:induction false} FoldPrefix<C>(h: Hash<C>, s: bytes, t: bytes, n: nat)
    requires BLOCK * n <= |s|
    ensures Fold(h, s + t, n) == Fold(h, s, n)
  {
    if n > 0 {
      FoldPrefix(h, s, t, n - 1);
      assert (s + t)[BLOCK * (n - 1)..BLOCK * n] == s[BLOCK * (n - 1)..BLOCK * n];
    }
  }

  /** The digest depends only on the values of the primitives. */
  lemma {:induction false} SameFold<C(!new)>(h: Hash<C>, g: Hash<C>, s: bytes, n: nat)
    requires BLOCK * n <= |s| && h.iv == g.iv
    requires forall c: C, block: bytes :: h.compress(c, block) == g.compress(c, block)
    ensures Fold(h, s, n) == Fold(g, s, n)
  {
    if n > 0 {
      SameFold(h, g, s, n - 1);
    }
  }

  lemma SliceOfTail(m: bytes, start: nat, i: nat, n: nat)
    requires start + i + n <= |m|
    ensures m[start..][i..i + n] == m[start + i..start + i + n]
  {
  }

  lemma FoldStep<C>(h: Hash<C>, s: bytes, n: nat)
    requires BLOCK * n + BLOCK <= |s|
    ensures Fold(h, s, n + 1) == h.compress(Fold(h, s, n), s[BLOCK * n..BLOCK * (n + 1)])
  {
  }

  lemma Offset(length: nat, n: nat)
    requires BLOCK * n <= length < BLOCK * n + BLOCK
    ensures length % 64 == length - BLOCK * n && length / 64 == n
  {
  }

  // ---------------------------------------------------------------- misc/md5.cpp

  /** `i + blocksize <= length` in 32-bit arithmetic tells the truth for every i that is reached. */
  predicate NoWrap(index: nat, length: nat) {
    length + index < BLOCK || length - (index + length) % BLOCK + BLOCK < WORD
  }

  class Md5Cpp<!C> {
    const h: Hash<C>
    const buffer: array<byte>
    var count0: nat
    var count1: nat
    var state: C
    var finalized: bool
    var digest: bytes
    ghost var message: bytes   // everything update has been given
    ghost var folded: nat      // how many blocks of it have been compressed

    ghost predicate Valid()
      reads this, buffer
    {
      Counts(count0, count1, |message|) && Absorbed(h, state, buffer[..], message, folded)
    }

    /** init */
    constructor (h: Hash<C>)
      ensures Valid() && !finalized && message == [] && this.h == h && fresh(buffer)
    {
      this.h := h;
      buffer := new byte[BLOCK](_ => 0);
      count0, count1, state, finalized, digest, message, folded := 0, 0, h.iv, false, [], [], 0;
    }

    method Transform(block: bytes)
      modifies `state
      ensures state == h.compress(old(state), block)
    {
      state := h.compress(state, block);
    }

    /** The counter part of update. */
    method Count(length: nat)
      requires length < WORD && Counts(count0, count1, |message|)
      modifies `count0, `count1
      ensures Counts(count0, count1, |message| + length)
    {
      CountAdds(count0, count1, |message|, length);
      var bits := length * 8 % WORD;
      count0 := (count0 + bits) % WORD;
      if count0 < bits {
        count1 := (count1 + 1) % WORD;
      } else {
        count1 := count1 % WORD;
      }
      count1 := (count1 + length / 0x2000_0000) % WORD;
    }

    method Update(input: bytes)
      requires Valid() && |input| < WORD && NoWrap(|message| % BLOCK, |input|)
      modifies this, buffer
      ensures Valid() && message == old(message) + input
      ensures finalized == old(finalized) && digest == old(digest)
    {
      var length := |input|;
      CountIndex(count0, count1, |message|);
      Offset(|message|, folded);
      var index := count0 / 8 % 64;
      Count(length);
      FoldPrefix(h, message, input, folded);
      ghost var start := |message|;
      message := message + input;
      Absorb(index, input, start);
    }

    /** What update does with the input, which is message[start..]. */
    method Absorb(index: nat, input: bytes, ghost start: nat)
      requires buffer.Length == BLOCK && index < BLOCK && |input| < WORD && NoWrap(index, |input|)
      requires start + |input| == |message| && input == message[start..]
      requires start == BLOCK * folded + index && buffer[..index] == message[BLOCK * folded..start]
      requires state == Fold(h, message, folded)
      modifies `state, `folded, buffer
      ensures Absorbed(h, state, buffer[..], message, folded)
    {
      var length := |input|;
      if length >= 64 - index {
        var i := CompressWhole(index, input, start);
        BufferRest(0, input[i..]);
      } else {
        BufferRest(index, input);
      }
    }

    /** The last memcpy of update: what is left goes behind what the buffer holds. */
    method BufferRest(index: nat, rest: bytes)
      requires buffer.Length == BLOCK && index + |rest| < BLOCK && |message| == BLOCK * folded + index + |rest|
      requires buffer[..index] + rest == message[BLOCK * folded..]
      requires state == Fold(h, message, folded)
      modifies buffer
      ensures Absorbed(h, state, buffer[..], message, folded)
    {
      Fill(index, rest, |rest|);
      assert buffer[..][..index + |rest|] == buffer[..index + |rest|];
    }

    /** The part of update that completes the buffer and compresses whole blocks. */
    method CompressWhole(index: nat, input: bytes, ghost start: nat) returns (i: nat)
      requires buffer.Length == BLOCK && index < BLOCK <= index + |input| && |input| < WORD && NoWrap(index, |input|)
      requires start + |input| == |message| && input == message[start..]
      requires start == BLOCK * folded + index && buffer[..index] == message[BLOCK * folded..start]
      requires state == Fold(h, message, folded)
      modifies `state, `folded, buffer
      ensures i <= |input| < i + BLOCK && start + i == BLOCK * folded
      ensures state == Fold(h, message, folded)
    {
      var firstPart := 64 - index;
      Fill(index, input, firstPart);
      assert buffer[..] == buffer[..BLOCK] == message[BLOCK * folded..BLOCK * (folded + 1)];
      Transform(buffer[..]);
      folded := folded + 1;
      NoWrapFirst(index, |input|);
      i := FoldBlocks(input, firstPart, start);
    }

    /** memcpy(&buffer[index], input, n) */
    method Fill(index: nat, input: bytes, n: nat)
      requires n <= |input| && index + n <= buffer.Length == BLOCK
      modifies buffer
      ensures buffer[..index + n] == old(buffer[..index]) + input[..n]
    {
      forall j | 0 <= j < n { buffer[index + j] := input[j]; }
    }

    /** The loop of update over whole blocks of the input, which is message[start..]. */
    method FoldBlocks(input: bytes, first: nat, ghost start: nat) returns (i: nat)
      requires first <= |input| < WORD && start + |input| == |message| && input == message[start..]
      requires start + first == BLOCK * folded && state == Fold(h, message, folded)
      requires |input| - (|input| - first) % BLOCK + BLOCK < WORD
      modifies `state, `folded
      ensures first <= i <= |input| < i + BLOCK && start + i == BLOCK * folded
      ensures state == Fold(h, message, folded)
    {
      i := first;
      NoWrapAt(|input|, first, folded, folded);
      while (i + BLOCK) % WORD <= |input|
        invariant first <= i <= |input| && start + i == BLOCK * folded && folded >= old(folded)
        invariant (i + BLOCK) % WORD == i + BLOCK
        invariant state == Fold(h, message, folded)
        decreases |input| - i
      {
        SliceOfTail(message, start, i, BLOCK);
        assert start + i + BLOCK == BLOCK * (folded + 1);
        FoldStep(h, message, folded);
        Transform(input[i..i + BLOCK]);
        i := i + BLOCK;
        folded := folded + 1;
        NoWrapAt(|input|, first, old(folded), folded);
      }
    }

    /** finalize: pads by calling update, then writes out the state. */
    method Finalize()
      requires !finalized ==> Valid()
      modifies this, buffer
      ensures finalized
      ensures digest == if old(finalized) then old(digest) else Digest(h, old(message))
    {
      if !finalized {
        ghost var m := message;
        var bits := LittleEndian(count0 + WORD * count1, 8);
        CountIndex(count0, count1, |m|);
        var index := count0 / 8 % 64;
        var padLen := if index < 56 then 56 - index else 120 - index;
        PadLengthCpp(|m|);
        PadAndLength(padLen, bits);
        digest := h.output(state);
        forall j | 0 <= j < BLOCK { buffer[j] := 0; }
        count0, count1 := 0, 0;
        finalized := true;
      }
    }

    /** The two calls of update in finalize. */
    method PadAndLength(padLen: nat, bits: bytes)
      requires Valid() && padLen == PadLength(|message|) && bits == LittleEndian(8 * |message| % DWORD, 8)
      modifies this, buffer
      ensures message == Padded(old(message)) && state == Fold(h, message, |message| / BLOCK)
    {
      Update(Padding(padLen));
      Update(bits);
      Offset(|message|, folded);
    }
  }

  lemma NoWrapFirst(index: nat, length: nat)
    requires index < BLOCK <= index + length
    ensures (length - (BLOCK - index)) % BLOCK == (index + length) % BLOCK
  {
  }

  /** For the aligned positions the loop reaches, the wrapped sum is the true one. */
  lemma NoWrapAt(length: nat, first: nat, n: nat, n': nat)
    requires n <= n' && first + BLOCK * (n' - n) <= length < WORD
    requires length - (length - first) % BLOCK + BLOCK < WORD
    ensures var i := first + BLOCK * (n' - n); (i + BLOCK) % WORD == i + BLOCK
  {
    var i := first + BLOCK * (n' - n);
    var q := (length - first) / BLOCK;
    assert length - first == BLOCK * q + (length - first) % BLOCK;
    assert n' - n <= q;
  }

  /** At every position i the loop can reach, the guard holds just when a whole block is left. */
  ghost predicate GuardIsRight(index: nat, length: nat) {
    forall k: nat :: Reached(index, length, k) ==> GuardIsRightAt(length, BLOCK - index + BLOCK * k)
  }

  predicate Reached(index: nat, length: nat, k: nat) {
    index < BLOCK && BLOCK - index + BLOCK * k <= length
  }

  predicate GuardIsRightAt(length: nat, i: nat) {
    (i + BLOCK) % WORD <= length <==> i + BLOCK <= length
  }

  /** NoWrap is exactly the domain on which the guard of update is right. */
  lemma NoWrapIsExact(index: nat, length: nat)
    requires index < BLOCK && length < WORD
    ensures NoWrap(index, length) <==> GuardIsRight(index, length)
  {
    if index + length >= BLOCK {
      var first := BLOCK - index;
      NoWrapFirst(index, length);
      var q := (length - first) / BLOCK;
      assert length - first == BLOCK * q + (length - first) % BLOCK;
      assert Reached(index, length, q);
      if NoWrap(index, length) {
        forall k: nat | Reached(index, length, k) ensures GuardIsRightAt(length, first + BLOCK * k) {
          NoWrapAt(length, first, 0, k);
        }
      } else {
        var last := first + BLOCK * q;
        assert (last + BLOCK) % WORD == last + BLOCK - WORD;
        assert !GuardIsRightAt(length, last);
      }
    }
  }

  /** One update of 2^32 - 1 octets: at the position of the last 63 octets the guard asks for one more block. */
  lemma GuardWraps()
    ensures var index, length, k := 0, 0xFFFF_FFFF, 0x3FF_FFFE;
            && !NoWrap(index, length) && Reached(index, length, k)
            && var i := BLOCK - index + BLOCK * k;
               length - i == 63 && (i + BLOCK) % WORD == 0 && !GuardIsRightAt(length, i)
  {
    assert BLOCK + BLOCK * 0x3FF_FFFE == 0xFFFF_FFC0;
    assert 0xFFFF_FFFF % BLOCK == 63;
  }

  lemma PadLengthCpp(length: nat)
    ensures var index := length % 64; (if index < 56 then 56 - index else 120 - index) == PadLength(length)
  {
  }

  // ---------------------------------------------------------------- websocketpp/common/md5.hpp

  class Md5Hpp<!C> {
    const h: Hash<C>
    const buf: array<byte>
    var count0: nat
    var count1: nat
    var abcd: C
    ghost var message: bytes   // everything md5_append has been given
    ghost var folded: nat      // how many blocks of it have been processed

    ghost predicate Valid()
      reads this, buf
    {
      Counts(count0, count1, |message|) && Absorbed(h, abcd, buf[..], message, folded)
    }

    /** md5_init */
    constructor (h: Hash<C>)
      ensures Valid() && message == [] && this.h == h && fresh(buf)
    {
      this.h := h;
      buf := new byte[BLOCK](_ => 0);
      count0, count1, abcd, message, folded := 0, 0, h.iv, [], 0;
    }

    /** md5_process */
    method Process(data: bytes)
      modifies `abcd
      ensures abcd == h.compress(old(abcd), data)
    {
      abcd := h.compress(abcd, data);
    }

    /** The counter part of md5_append: high word first, carry last. */
    method Count(nbytes: nat)
      requires Counts(count0, count1, |message|)
      modifies `count0, `count1
      ensures Counts(count0, count1, |message| + nbytes)
    {
      CountAdds(count0, count1, |message|, nbytes);
      var nbits := nbytes * 8 % WORD;
      CarryLast(count1, nbytes / 0x2000_0000, if (count0 + nbits) % WORD < nbits then 1 else 0);
      ModUnique((count1 + nbytes / 0x2000_0000) % WORD, 0, (count1 + nbytes / 0x2000_0000) % WORD);
      count1 := (count1 + nbytes / 0x2000_0000) % WORD;
      count0 := (count0 + nbits) % WORD;
      if count0 < nbits {
        count1 := (count1 + 1) % WORD;
      }
    }

    /** md5_append */
    method Append(data: bytes)
      requires Valid()
      modifies this, buf
      ensures Valid() && message == old(message) + data
    {
      CountIndex(count0, count1, |message|);
      Offset(|message|, folded);
      var offset := count0 / 8 % 64;
      if |data| <= 0 {
        assert data == [] && message + data == message;
        return;
      }
      Count(|data|);
      FoldPrefix(h, message, data, folded);
      ghost var start := |message|;
      message := message + data;
      Absorb(offset, data, start);
    }

    /** What md5_append does with the data, which is message[start..]. */
    method Absorb(offset: nat, data: bytes, ghost start: nat)
      requires buf.Length == BLOCK && offset < BLOCK && start + |data| == |message| && data == message[start..]
      requires start == BLOCK * folded + offset && buf[..offset] == message[BLOCK * folded..start]
      requires abcd == Fold(h, message, folded)
      modifies buf, `abcd, `folded
      ensures Absorbed(h, abcd, buf[..], message, folded)
    {
      var p := 0;
      if offset > 0 {
        var copy := if offset + |data| > 64 then 64 - offset else |data|;
        FillPartial(offset, data, copy);
        if offset + copy < 64 {
          return;
        }
        p := copy;
      }
      p := ProcessFullBlocks(data, p, start);
      FillFinal(data[p..]);
    }

    /** The initial partial block of md5_append: n octets are copied behind the offset already in the buffer,
        and the block is processed if that fills it. */
    method FillPartial(offset: nat, data: bytes, n: nat)
      requires buf.Length == BLOCK && 0 < offset < BLOCK && n <= |data| && offset + n <= BLOCK
      requires n == |data| || offset + n == BLOCK
      requires |message| == BLOCK * folded + offset + |data| && abcd == Fold(h, message, folded)
      requires buf[..offset] + data == message[BLOCK * folded..]
      modifies buf, `abcd, `folded
      ensures offset + n < BLOCK ==> Absorbed(h, abcd, buf[..], message, folded)
      ensures offset + n == BLOCK ==> folded == old(folded) + 1 && abcd == Fold(h, message, folded)
    {
      Fill(offset, data, n);
      if offset + n < BLOCK {
        assert buf[..][..offset + n] == buf[..offset + n];
        assert data[..n] == data;
      } else {
        assert message[BLOCK * folded..BLOCK * folded + BLOCK] == message[BLOCK * folded..][..BLOCK];
        assert buf[..] == buf[..BLOCK] == message[BLOCK * folded..BLOCK * (folded + 1)];
        FoldStep(h, message, folded);
        Process(buf[..]);
        folded := folded + 1;
      }
    }

    /** memcpy(pms->buf + offset, p, n) */
    method Fill(offset: nat, data: bytes, n: nat)
      requires n <= |data| && offset + n <= buf.Length == BLOCK
      modifies buf
      ensures buf[..offset + n] == old(buf[..offset]) + data[..n]
    {
      forall j | 0 <= j < n { buf[offset + j] := data[j]; }
    }

    /** The loop of md5_append over full blocks of the data, which is message[start..]. */
    method ProcessFullBlocks(data: bytes, first: nat, ghost start: nat) returns (p: nat)
      requires first <= |data| && start + |data| == |message| && data == message[start..]
      requires start + first == BLOCK * folded && abcd == Fold(h, message, folded)
      modifies `abcd, `folded
      ensures first <= p <= |data| < p + BLOCK && start + p == BLOCK * folded && abcd == Fold(h, message, folded)
    {
      p := first;
      var left := |data| - first;
      while left >= 64
        invariant first <= p <= |data| && left == |data| - p
        invariant start + p == BLOCK * folded && abcd == Fold(h, message, folded)
        decreases left
      {
        SliceOfTail(message, start, p, BLOCK);
        assert start + p + BLOCK == BLOCK * (folded + 1);
        FoldStep(h, message, folded);
        Process(data[p..p + BLOCK]);
        folded := folded + 1;
        p := p + 64;
        left := left - 64;
      }
    }

    /** The last memcpy of md5_append, skipped when nothing is left. */
    method FillFinal(rest: bytes)
      requires buf.Length == BLOCK && |rest| < BLOCK && |message| == BLOCK * folded + |rest| && rest == message[BLOCK * folded..]
      requires abcd == Fold(h, message, folded)
      modifies buf
      ensures Absorbed(h, abcd, buf[..], message, folded)
    {
      if |rest| > 0 {
        Fill(0, rest, |rest|);
        assert buf[..][..|rest|] == buf[..|rest|];
      }
    }

    /** md5_finish */
    method Finish() returns (digest: bytes)
      requires Valid()
      modifies this, buf
      ensures digest == Digest(h, old(message))
    {
      ghost var m := message;
      var data := LittleEndian(count0 + WORD * count1, 8);
      CountIndex(count0, count1, |m|);
      PadLengthHpp(count0, |m|);
      PadAndLength(((55 - count0 / 8) % WORD) % 64 + 1, data);
      digest := h.output(abcd);
    }

    /** The two calls of md5_append in md5_finish. */
    method PadAndLength(padLen: nat, data: bytes)
      requires Valid() && padLen == PadLength(|message|) && data == LittleEndian(8 * |message| % DWORD, 8)
      modifies this, buf
      ensures message == Padded(old(message)) && abcd == Fold(h, message, |message| / BLOCK)
    {
      Append(Padding(padLen));
      Append(data);
      Offset(|message|, folded);
    }
  }

  lemma CarryLast(count1: nat, high: nat, carry: nat)
    ensures ((count1 + carry) % WORD + high) % WORD == ((count1 + high) % WORD + carry) % WORD
  {
    InnerMod(count1 + carry, high);
    InnerMod(count1 + high, carry);
  }

  lemma InnerMod(a: nat, b: nat)
    ensures (a % WORD + b) % WORD == (a + b) % WORD
  {
    var q, r := a / WORD, a % WORD;
    assert a + b == WORD * q + (r + b);
    assert (r + b) % WORD == r + b - WORD * ((r + b) / WORD);
    ModUnique(a + b, q + (r + b) / WORD, (r + b) % WORD);
  }

  lemma ModUnique(v: nat, q: nat, r: nat)
    requires v == WORD * q + r && r < WORD
    ensures v % WORD == r
  {
  }

  /** The unsigned subtraction may wrap; the low six bits are right all the same. */
  lemma PadLengthHpp(count0: nat, length: nat)
    requires count0 < WORD && count0 / 8 % 64 == length % 64
    ensures ((55 - count0 / 8) % WORD) % 64 + 1 == PadLength(length)
  {
    var c := count0 / 8;
    var wrapped := (55 - c) % WORD;
    assert wrapped == 55 - c || wrapped == 55 - c + WORD;
    var w := if c <= 55 then 0 else 0x400_0000;
    assert wrapped == 55 - c + 64 * w;
    assert c - length == 64 * (c / 64 - length / 64);
    SameMod(55 - length, wrapped, c / 64 - length / 64 - w);
  }

  lemma SameMod(a: int, b: int, k: int)
    requires a == b + 64 * k
    ensures a % 64 == b % 64
  {
  }

  // ---------------------------------------------------------------- main results

  /** Every piece has an unsigned length at which the guard of update is right where the piece begins. */
  predicate NeverWraps(pieces: seq<bytes>) {
    forall i :: 0 <= i < |pieces| ==> |pieces[i]| < WORD && NoWrap(|Concat(pieces[..i])| % BLOCK, |pieces[i]|)
  }

  /** The digest of misc/md5.cpp, its message given to update in any pieces. */
  method HashCpp<C>(h: Hash<C>, pieces: seq<bytes>) returns (digest: bytes)
    requires NeverWraps(pieces)
    ensures digest == Digest(h, Concat(pieces))
  {
    var md5 := new Md5Cpp(h);
    for i := 0 to |pieces|
      invariant md5.h == h && md5.Valid() && !md5.finalized && md5.message == Concat(pieces[..i]) && fresh(md5) && fresh(md5.buffer)
    {
      assert pieces[..i + 1][..i] == pieces[..i];
      md5.Update(pieces[i]);
    }
    assert pieces[..|pieces|] == pieces;
    md5.Finalize();
    digest := md5.digest;
  }

  /** The digest of websocketpp/common/md5.hpp, its message given to md5_append in any pieces. */
  method HashHpp<C>(h: Hash<C>, pieces: seq<bytes>) returns (digest: bytes)
    ensures digest == Digest(h, Concat(pieces))
  {
    var md5 := new Md5Hpp(h);
    for i := 0 to |pieces|
      invariant md5.h == h && md5.Valid() && md5.message == Concat(pieces[..i]) && fresh(md5) && fresh(md5.buf)
    {
      assert pieces[..i + 1][..i] == pieces[..i];
      md5.Append(pieces[i]);
    }
    assert pieces[..|pieces|] == pieces;
    digest := md5.Finish();
  }
}
