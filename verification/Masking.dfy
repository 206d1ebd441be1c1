/**
 The masking functions of websocketpp::frame on a machine with 64-bit words of either byte order:
 the word-wise forms refine the byte-wise one (RFC 6455 section 5.3).
 */
module Masking {

  type octet = bv8

  /** RFC 6455 section 5.3: octet i of the data is xored with octet i modulo 4 of the key. */
  function Masked(data: seq<octet>, key: seq<octet>, offset: nat): (r: seq<octet>)
    requires |key| == 4
    ensures |r| == |data|
    ensures forall i :: 0 <= i < |data| ==> r[i] == data[i] ^ key[(offset + i) % 4]
  {
    seq(|data|, i requires 0 <= i < |data| => data[i] ^ key[(offset + i) % 4])
  }

  /** Octet k of a word, counted from the least significant one. */
  function ByteOf(w: bv64, k: nat): octet
    requires k < 8
  {
    match k
    case 0 => (w & 0xFF) as octet
    case 1 => ((w >> 8) & 0xFF) as octet
    case 2 => ((w >> 16) & 0xFF) as octet
    case 3 => ((w >> 24) & 0xFF) as octet
    case 4 => ((w >> 32) & 0xFF) as octet
    case 5 => ((w >> 40) & 0xFF) as octet
    case 6 => ((w >> 48) & 0xFF) as octet
    case _ => ((w >> 56) & 0xFF) as octet
  }

  /** Four octets, least significant first. */
  function Join32(a: octet, b: octet, c: octet, d: octet): bv64 {
    (a as bv64) | ((b as bv64) << 8) | ((c as bv64) << 16) | ((d as bv64) << 24)
  }

  function Join64(low: bv64, high: bv64): bv64 {
    (high << 32) | low
  }

  /** (k >> n*8) | (k << (8-n)*8). */
  function RotateRight(k: bv64, n: nat): bv64
    requires n <= 8
  {
    match n
    case 0 => k
    case 1 => (k >> 8) | (k << 56)
    case 2 => (k >> 16) | (k << 48)
    case 3 => (k >> 24) | (k << 40)
    case 4 => (k >> 32) | (k << 32)
    case 5 => (k >> 40) | (k << 24)
    case 6 => (k >> 48) | (k << 16)
    case 7 => (k >> 56) | (k << 8)
    case _ => k
  }

  // ---------------------------------------------------------------- words seen through memory

  datatype Eight<T> = Eight(a: T, b: T, c: T, d: T, e: T, f: T, g: T, h: T)

  /** The octets of a size_t in address order; `le` says that the machine is little-endian. */
  function View(w: bv64, le: bool): Eight<octet> {
    if le then Eight(ByteOf(w, 0), ByteOf(w, 1), ByteOf(w, 2), ByteOf(w, 3), ByteOf(w, 4), ByteOf(w, 5), ByteOf(w, 6), ByteOf(w, 7))
    else Eight(ByteOf(w, 7), ByteOf(w, 6), ByteOf(w, 5), ByteOf(w, 4), ByteOf(w, 3), ByteOf(w, 2), ByteOf(w, 1), ByteOf(w, 0))
  }

  /** A size_t read from eight octets of memory. */
  function Load(m: Eight<octet>, le: bool): bv64 {
    if le then Join64(Join32(m.a, m.b, m.c, m.d), Join32(m.e, m.f, m.g, m.h))
    else Join64(Join32(m.h, m.g, m.f, m.e), Join32(m.d, m.c, m.b, m.a))
  }

  /** prepare_masking_key: key.i in both halves of the word. */
  function PrepareMaskingKeyBits(k0: octet, k1: octet, k2: octet, k3: octet, le: bool): bv64 {
    var i := if le then Join32(k0, k1, k2, k3) else Join32(k3, k2, k1, k0);
    Join64(i, i)
  }

  /** circshift_prepared_key: right by `offset` octets, or left, which is right by the rest. */
  function CircshiftBits(k: bv64, offset: nat, le: bool): bv64
    requires offset < 8
  {
    if offset == 0 then k
    else if le then RotateRight(k, offset)
    else RotateRight(k, 8 - offset)
  }

  function Zip<T>(m: Eight<T>, n: Eight<T>, f: (T, T) -> T): Eight<T> {
    Eight(f(m.a, n.a), f(m.b, n.b), f(m.c, n.c), f(m.d, n.d), f(m.e, n.e), f(m.f, n.f), f(m.g, n.g), f(m.h, n.h))
  }

  function Xor(a: octet, b: octet): octet { a ^ b }

  function XorEight(m: Eight<octet>, n: Eight<octet>): Eight<octet> {
    Eight(m.a ^ n.a, m.b ^ n.b, m.c ^ n.c, m.d ^ n.d, m.e ^ n.e, m.f ^ n.f, m.g ^ n.g, m.h ^ n.h)
  }

  lemma XorEightIsZip(m: Eight<octet>, n: Eight<octet>)
    ensures XorEight(m, n) == Zip(m, n, Xor)
  {
  }

  function RotateEight<T>(m: Eight<T>, n: nat): Eight<T>
    requires n < 8
  {
    match n
    case 0 => m
    case 1 => Eight(m.b, m.c, m.d, m.e, m.f, m.g, m.h, m.a)
    case 2 => Eight(m.c, m.d, m.e, m.f, m.g, m.h, m.a, m.b)
    case 3 => Eight(m.d, m.e, m.f, m.g, m.h, m.a, m.b, m.c)
    case 4 => Eight(m.e, m.f, m.g, m.h, m.a, m.b, m.c, m.d)
    case 5 => Eight(m.f, m.g, m.h, m.a, m.b, m.c, m.d, m.e)
    case 6 => Eight(m.g, m.h, m.a, m.b, m.c, m.d, m.e, m.f)
    case _ => Eight(m.h, m.a, m.b, m.c, m.d, m.e, m.f, m.g)
  }

  lemma XorIsOctetwise(a: bv64, b: bv64, le: bool)
    ensures View(a ^ b, le) == XorEight(View(a, le), View(b, le))
  {
  }

  lemma LoadIsView(m: Eight<octet>, le: bool)
    ensures View(Load(m, le), le) == m
  {
  }

  lemma PrepareIsTwoKeys(k0: octet, k1: octet, k2: octet, k3: octet, le: bool)
    ensures View(PrepareMaskingKeyBits(k0, k1, k2, k3, le), le) == Eight(k0, k1, k2, k3, k0, k1, k2, k3)
  {
    LoadIsView(Eight(k0, k1, k2, k3, k0, k1, k2, k3), le);
  }

  /** A shift of the prepared key is a rotation of its octets, in either byte order. */
  lemma Circshift1(k: bv64, le: bool) ensures View(CircshiftBits(k, 1, le), le) == RotateEight(View(k, le), 1) {}
  lemma Circshift2(k: bv64, le: bool) ensures View(CircshiftBits(k, 2, le), le) == RotateEight(View(k, le), 2) {}
  lemma Circshift3(k: bv64, le: bool) ensures View(CircshiftBits(k, 3, le), le) == RotateEight(View(k, le), 3) {}
  lemma Circshift4(k: bv64, le: bool) ensures View(CircshiftBits(k, 4, le), le) == RotateEight(View(k, le), 4) {}
  lemma Circshift5(k: bv64, le: bool) ensures View(CircshiftBits(k, 5, le), le) == RotateEight(View(k, le), 5) {}
  lemma Circshift6(k: bv64, le: bool) ensures View(CircshiftBits(k, 6, le), le) == RotateEight(View(k, le), 6) {}
  lemma Circshift7(k: bv64, le: bool) ensures View(CircshiftBits(k, 7, le), le) == RotateEight(View(k, le), 7) {}

  lemma CircshiftIsRotation(k: bv64, offset: nat, le: bool)
    requires offset < 8
    ensures View(CircshiftBits(k, offset, le), le) == RotateEight(View(k, le), offset)
  {
    match offset
    case 0 =>
    case 1 => Circshift1(k, le);
    case 2 => Circshift2(k, le);
    case 3 => Circshift3(k, le);
    case 4 => Circshift4(k, le);
    case 5 => Circshift5(k, le);
    case 6 => Circshift6(k, le);
    case 7 => Circshift7(k, le);
  }

  // ---------------------------------------------------------------- the same words as octet sequences

  /** A size_t in memory. What the functions compute is stated on these. */
  type Word = s: seq<octet> | |s| == 8 witness [0, 0, 0, 0, 0, 0, 0, 0]

  function Elements<T>(m: Eight<T>): (s: seq<T>)
    ensures |s| == 8
  {
    [m.a, m.b, m.c, m.d, m.e, m.f, m.g, m.h]
  }

  /** The octets of a word in address order. */
  function Octets(w: bv64, le: bool): Word {
    Elements(View(w, le))
  }

  function PrepareMaskingKey(key: seq<octet>): Word
    requires |key| == 4
  {
    key + key
  }

  function CircshiftPreparedKey(k: Word, offset: nat): Word
    requires offset < 8
  {
    k[offset..] + k[..offset]
  }

  function PreparedBits(key: seq<octet>, le: bool): bv64
    requires |key| == 4
  {
    PrepareMaskingKeyBits(key[0], key[1], key[2], key[3], le)
  }

  lemma PreparedKeyBits(key: seq<octet>, le: bool)
    requires |key| == 4
    ensures PrepareMaskingKey(key) == Octets(PreparedBits(key, le), le)
  {
    PrepareIsTwoKeys(key[0], key[1], key[2], key[3], le);
  }

  lemma RotateEightElements<T>(m: Eight<T>, n: nat)
    requires n < 8
    ensures Elements(m)[n..] + Elements(m)[..n] == Elements(RotateEight(m, n))
  {
  }

  lemma CircshiftKeyBits(k: bv64, offset: nat, le: bool)
    requires offset < 8
    ensures CircshiftPreparedKey(Octets(k, le), offset) == Octets(CircshiftBits(k, offset, le), le)
  {
    CircshiftIsRotation(k, offset, le);
    RotateEightElements(View(k, le), offset);
  }

  /** key.c after key.i = prepared_key in byte_mask_circ: the octets of the low half of the word. */
  function LowHalf(k: Word, le: bool): (s: seq<octet>)
    ensures |s| == 4
  {
    if le then k[..4] else k[4..]
  }

  /** The same, from the word: its low 32 bits, stored as a 32-bit integer. */
  function LowOctets(k: bv64, le: bool): (s: seq<octet>)
    ensures |s| == 4
  {
    if le then [ByteOf(k, 0), ByteOf(k, 1), ByteOf(k, 2), ByteOf(k, 3)]
    else [ByteOf(k, 3), ByteOf(k, 2), ByteOf(k, 1), ByteOf(k, 0)]
  }

  lemma LowOctetsAreHalf(k: bv64, le: bool)
    ensures LowOctets(k, le) == LowHalf(Octets(k, le), le)
  {
  }

  // ---------------------------------------------------------------- what the circular forms compute

  /** The octets word_mask_circ writes. */
  function WordCirc(data: seq<octet>, k: Word): (r: seq<octet>)
    ensures |r| == |data|
  {
    seq(|data|, i requires 0 <= i < |data| => data[i] ^ k[i % 8])
  }

  /** The octets byte_mask_circ writes. */
  function ByteCirc(data: seq<octet>, k: Word, le: bool): (r: seq<octet>)
    ensures |r| == |data|
  {
    seq(|data|, i requires 0 <= i < |data| => data[i] ^ LowHalf(k, le)[i % 4])
  }

  /** k is the key prepared for data that starts `offset` octets into the message. */
  predicate Prepared(k: Word, key: seq<octet>, offset: nat)
    requires |key| == 4
  {
    forall j :: 0 <= j < 8 ==> k[j] == key[(offset + j) % 4]
  }

  lemma KeyIndex(offset: nat, shift: nat, n: nat, j: nat)
    requires j < 8 && shift < 8 && n % 4 == shift % 4
    ensures (offset + (j + shift) % 8) % 4 == (offset + n + j) % 4
  {
    var wrap := if j + shift < 8 then 0 else 8;
    assert (j + shift) % 8 == j + shift - wrap;
    var t := n / 4 - shift / 4;
    assert n == shift + 4 * t;
    assert offset + n + j == (offset + (j + shift - wrap)) + 4 * t + wrap;
  }

  lemma CircshiftAt(k: Word, shift: nat, j: nat)
    requires shift < 8 && j < 8
    ensures CircshiftPreparedKey(k, shift)[j] == k[(j + shift) % 8]
  {
    var i := if j + shift < 8 then j + shift else j + shift - 8;
    assert (j + shift) % 8 == i;
  }

  /** The returned key is prepared for the octets that come next. */
  lemma CircshiftIsPrepared(k: Word, key: seq<octet>, offset: nat, shift: nat, n: nat)
    requires |key| == 4 && Prepared(k, key, offset) && shift < 8 && n % 4 == shift % 4
    ensures Prepared(CircshiftPreparedKey(k, shift), key, offset + n)
  {
    forall j | 0 <= j < 8 ensures CircshiftPreparedKey(k, shift)[j] == key[(offset + n + j) % 4] {
      KeyIndex(offset, shift, n, j);
      CircshiftAt(k, shift, j);
    }
  }

  lemma ModOfMod(offset: nat, i: nat)
    ensures (offset + i % 8) % 4 == (offset + i) % 4
  {
    assert i == i % 8 + 8 * (i / 8);
    assert offset + i == offset + i % 8 + 4 * (2 * (i / 8));
  }

  lemma WordCircIsMasked(data: seq<octet>, k: Word, key: seq<octet>, offset: nat)
    requires |key| == 4 && Prepared(k, key, offset)
    ensures WordCirc(data, k) == Masked(data, key, offset)
  {
    forall i | 0 <= i < |data| ensures WordCirc(data, k)[i] == Masked(data, key, offset)[i] {
      ModOfMod(offset, i);
    }
  }

  lemma AddFour(x: nat)
    ensures (x + 4) % 4 == x % 4
  {
  }

  lemma ModOfModFour(offset: nat, i: nat)
    ensures (offset + i % 4) % 4 == (offset + i) % 4
  {
    assert i == i % 4 + 4 * (i / 4);
    assert offset + i == offset + i % 4 + 4 * (i / 4);
  }

  lemma LowHalfAt(k: Word, key: seq<octet>, offset: nat, le: bool, j: nat)
    requires |key| == 4 && Prepared(k, key, offset) && j < 4
    ensures LowHalf(k, le)[j] == key[(offset + j) % 4]
  {
    var i := if le then j else j + 4;
    assert LowHalf(k, le)[j] == k[i];
    AddFour(offset + j);
  }

  lemma ByteCircIsMasked(data: seq<octet>, k: Word, le: bool, key: seq<octet>, offset: nat)
    requires |key| == 4 && Prepared(k, key, offset)
    ensures ByteCirc(data, k, le) == Masked(data, key, offset)
  {
    forall i | 0 <= i < |data| ensures ByteCirc(data, k, le)[i] == Masked(data, key, offset)[i] {
      LowHalfAt(k, key, offset, le, i % 4);
      ModOfModFour(offset, i);
    }
  }

  // ---------------------------------------------------------------- main results

  /** Masking twice with the same key and offset is the identity. */
  lemma MaskedTwice(data: seq<octet>, key: seq<octet>, offset: nat)
    requires |key| == 4
    ensures Masked(Masked(data, key, offset), key, offset) == data
  {
    forall i | 0 <= i < |data| ensures Masked(Masked(data, key, offset), key, offset)[i] == data[i] {
      XorCancels(data[i], key[(offset + i) % 4]);
    }
  }

  lemma XorCancels(a: octet, b: octet)
    ensures (a ^ b) ^ b == a
  {
  }

  lemma MaskedConcat(a: seq<octet>, b: seq<octet>, key: seq<octet>, offset: nat)
    requires |key| == 4
    ensures Masked(a + b, key, offset) == Masked(a, key, offset) + Masked(b, key, offset + |a|)
  {
  }

  /** A piece of a message and the circular function it is given to. */
  datatype Piece = WordPiece(data: seq<octet>) | BytePiece(data: seq<octet>)

  function PieceMasked(p: Piece, k: Word, le: bool): seq<octet> {
    if p.WordPiece? then WordCirc(p.data, k) else ByteCirc(p.data, k, le)
  }

  function PieceKey(p: Piece, k: Word): Word {
    CircshiftPreparedKey(k, if p.WordPiece? then |p.data| % 8 else |p.data| % 4)
  }

  function Joined(pieces: seq<Piece>): seq<octet> {
    if pieces == [] then [] else pieces[0].data + Joined(pieces[1..])
  }

  /** The circular functions in a chain, each given the key the one before returned. */
  function Chain(pieces: seq<Piece>, k: Word, le: bool): seq<octet> {
    if pieces == [] then [] else PieceMasked(pieces[0], k, le) + Chain(pieces[1..], PieceKey(pieces[0], k), le)
  }

  lemma PieceIsMasked(p: Piece, k: Word, le: bool, key: seq<octet>, offset: nat)
    requires |key| == 4 && Prepared(k, key, offset)
    ensures PieceMasked(p, k, le) == Masked(p.data, key, offset)
    ensures Prepared(PieceKey(p, k), key, offset + |p.data|)
  {
    if p.WordPiece? {
      WordCircIsMasked(p.data, k, key, offset);
      ModOfMod(0, |p.data|);
      CircshiftIsPrepared(k, key, offset, |p.data| % 8, |p.data|);
    } else {
      ByteCircIsMasked(p.data, k, le, key, offset);
      CircshiftIsPrepared(k, key, offset, |p.data| % 4, |p.data|);
    }
  }

  lemma {:induction false} ChainFrom(pieces: seq<Piece>, k: Word, le: bool, key: seq<octet>, offset: nat)
    requires |key| == 4 && Prepared(k, key, offset)
    ensures Chain(pieces, k, le) == Masked(Joined(pieces), key, offset)
    decreases |pieces|
  {
    if pieces == [] {
      assert Masked([], key, offset) == [];
    } else {
      var p, rest := pieces[0], pieces[1..];
      var k', tail := PieceKey(p, k), Joined(rest);
      assert pieces == [p] + rest;
      ChainCons(p, rest, k, le);
      PieceIsMasked(p, k, le, key, offset);
      ChainFrom(rest, k', le, key, offset + |p.data|);
      calc {
        Chain(pieces, k, le);
        PieceMasked(p, k, le) + Chain(rest, k', le);
        Masked(p.data, key, offset) + Masked(tail, key, offset + |p.data|);
        { MaskedConcat(p.data, tail, key, offset); }
        Masked(p.data + tail, key, offset);
      }
    }
  }

  lemma ChainCons(p: Piece, rest: seq<Piece>, k: Word, le: bool)
    ensures Chain([p] + rest, k, le) == PieceMasked(p, k, le) + Chain(rest, PieceKey(p, k), le)
    ensures Joined([p] + rest) == p.data + Joined(rest)
  {
    assert ([p] + rest)[1..] == rest;
  }

  /** The same chain with the key a size_t that is shifted from call to call. */
  function ChainBits(pieces: seq<Piece>, k: bv64, le: bool): seq<octet> {
    if pieces == [] then [] else PieceMasked(pieces[0], Octets(k, le), le) + ChainBits(pieces[1..], PieceKeyBits(pieces[0], k, le), le)
  }

  function PieceKeyBits(p: Piece, k: bv64, le: bool): bv64 {
    CircshiftBits(k, if p.WordPiece? then |p.data| % 8 else |p.data| % 4, le)
  }

  lemma PieceKeyOctets(p: Piece, k: bv64, le: bool)
    ensures Octets(PieceKeyBits(p, k, le), le) == PieceKey(p, Octets(k, le))
  {
    CircshiftKeyBits(k, if p.WordPiece? then |p.data| % 8 else |p.data| % 4, le);
  }

  lemma {:induction false} ChainOctets(pieces: seq<Piece>, k: bv64, le: bool)
    ensures ChainBits(pieces, k, le) == Chain(pieces, Octets(k, le), le)
    decreases |pieces|
  {
    if pieces != [] {
      PieceKeyOctets(pieces[0], k, le);
      ChainOctets(pieces[1..], PieceKeyBits(pieces[0], k, le), le);
    }
  }

  lemma FreshKeyIsPrepared(key: seq<octet>)
    requires |key| == 4
    ensures Prepared(PrepareMaskingKey(key), key, 0)
  {
  }

  lemma ChainBitsAreMasked(pieces: seq<Piece>, k: bv64, le: bool, word: Word, key: seq<octet>)
    requires |key| == 4 && word == Octets(k, le) && Prepared(word, key, 0)
    ensures ChainBits(pieces, k, le) == Masked(Joined(pieces), key, 0)
  {
    ChainOctets(pieces, k, le);
    ChainFrom(pieces, word, le, key, 0);
  }

  /**
   Any chain of word_mask_circ and byte_mask_circ calls over any fragmentation of a message, the key a
   size_t of either byte order, writes what one byte_mask of the whole message would write.
   */
  lemma ChainIsMasked(pieces: seq<Piece>, le: bool, key: seq<octet>)
    requires |key| == 4
    ensures ChainBits(pieces, PreparedBits(key, le), le) == Masked(Joined(pieces), key, 0)
  {
    PreparedKeyBits(key, le);
    FreshKeyIsPrepared(key);
    ChainBitsAreMasked(pieces, PreparedBits(key, le), le, PrepareMaskingKey(key), key);
  }

  // ---------------------------------------------------------------- the methods of the source

  /** byte_mask, in place or into another buffer. */
  method ByteMask(input: array<octet>, output: array<octet>, length: nat, key: seq<octet>, keyOffset: nat)
    requires |key| == 4 && length <= input.Length && length <= output.Length
    modifies output
    ensures output[..length] == Masked(old(input[..length]), key, keyOffset)
    ensures output[length..] == old(output[length..])
  {
    var keyIndex := keyOffset % 4;
    for i := 0 to length
      invariant keyIndex == (keyOffset + i) % 4
      invariant forall n :: 0 <= n < i ==> output[n] == old(input[n]) ^ key[(keyOffset + n) % 4]
      invariant forall n :: i <= n < input.Length ==> input[n] == old(input[n])
      invariant output[length..] == old(output[length..])
    {
      output[i] := input[i] ^ key[keyIndex];
      keyIndex := keyIndex + 1;
      keyIndex := keyIndex % 4;
    }
  }

  function EightOf<T>(s: seq<T>): (m: Eight<T>)
    requires |s| == 8
    ensures Elements(m) == s
  {
    Eight(s[0], s[1], s[2], s[3], s[4], s[5], s[6], s[7])
  }

  lemma ZipAt<T>(m: Eight<T>, n: Eight<T>, f: (T, T) -> T, j: nat)
    requires j < 8
    ensures Elements(Zip(m, n, f))[j] == f(Elements(m)[j], Elements(n)[j])
  {
  }

  lemma XorWordView(m: Eight<octet>, k: bv64, le: bool)
    ensures View(Load(m, le) ^ k, le) == XorEight(m, View(k, le))
  {
    XorIsOctetwise(Load(m, le), k, le);
    LoadIsView(m, le);
  }

  lemma XorWordAt(m: Word, k: bv64, le: bool, j: nat)
    requires j < 8
    ensures Octets(Load(EightOf(m), le) ^ k, le)[j] == Xor(m[j], Octets(k, le)[j])
  {
    XorWordView(EightOf(m), k, le);
    XorEightIsZip(EightOf(m), View(k, le));
    ZipAt(EightOf(m), View(k, le), Xor, j);
  }

  /** input_word[i] ^ k: a load, a xor and a store. */
  method XorWord(m: Word, k: bv64, le: bool, ghost key: Word) returns (w: Word)
    requires key == Octets(k, le)
    ensures forall j :: 0 <= j < 8 ==> w[j] == Xor(m[j], key[j])
  {
    w := Octets(Load(EightOf(m), le) ^ k, le);
    forall j | 0 <= j < 8 ensures w[j] == Xor(m[j], key[j]) {
      XorWordAt(m, k, le, j);
    }
  }

  /** output_word[i] = input_word[i] ^ k for one word, `at` octets into the buffers. */
  method MaskWord(input: array<octet>, output: array<octet>, at: nat, k: bv64, le: bool, ghost key: Word)
    requires at + 8 <= input.Length && at + 8 <= output.Length && key == Octets(k, le)
    modifies output
    ensures forall n :: at <= n < at + 8 ==> output[n] == old(input[n]) ^ key[n - at]
    ensures forall n :: 0 <= n < output.Length && !(at <= n < at + 8) ==> output[n] == old(output[n])
  {
    var word := XorWord(input[at..at + 8], k, le, key);
    forall j | 0 <= j < 8 { output[at + j] := word[j]; }
  }

  /** The loop over whole words that word_mask_exact and word_mask_circ share. */
  method MaskWords(input: array<octet>, output: array<octet>, words: nat, k: bv64, le: bool, ghost key: Word)
    requires words * 8 <= input.Length && words * 8 <= output.Length && key == Octets(k, le)
    modifies output
    ensures forall n :: 0 <= n < words * 8 ==> output[n] == old(input[n]) ^ key[n % 8]
    ensures forall n :: words * 8 <= n < output.Length ==> output[n] == old(output[n])
  {
    for i := 0 to words
      invariant forall n :: 0 <= n < i * 8 ==> output[n] == old(input[n]) ^ key[n % 8]
      invariant forall n :: i * 8 <= n < input.Length ==> input[n] == old(input[n])
      invariant forall n :: i * 8 <= n < output.Length ==> output[n] == old(output[n])
    {
      MaskWord(input, output, i * 8, k, le, key);
      forall n | i * 8 <= n < i * 8 + 8 ensures n - i * 8 == n % 8 {
      }
    }
  }

  /** prepare_masking_key */
  method Prepare(key: seq<octet>, le: bool) returns (k: bv64)
    requires |key| == 4
    ensures Octets(k, le) == PrepareMaskingKey(key)
  {
    k := PreparedBits(key, le);
    PreparedKeyBits(key, le);
  }

  /** word_mask_exact: whole words, then the rest octet by octet with the four-octet key. */
  method WordMaskExact(input: array<octet>, output: array<octet>, length: nat, key: seq<octet>, le: bool)
    requires |key| == 4 && length <= input.Length && length <= output.Length
    modifies output
    ensures output[..length] == Masked(old(input[..length]), key, 0)
    ensures output[length..] == old(output[length..])
  {
    var k := Prepare(key, le);
    ghost var word := PrepareMaskingKey(key);
    var n := length / 8;
    MaskWords(input, output, n, k, le, word);
    forall m | 0 <= m < n * 8 ensures word[m % 8] == key[m % 4] {
      ModOfMod(0, m);
    }
    for i := n * 8 to length
      invariant forall m :: 0 <= m < i ==> output[m] == old(input[m]) ^ key[m % 4]
      invariant forall m :: i <= m < input.Length ==> input[m] == old(input[m])
      invariant forall m :: i <= m < output.Length ==> output[m] == old(output[m])
    {
      output[i] := input[i] ^ key[i % 4];
    }
  }

  /** word_mask_circ: the octets after the last whole word use the octets of the prepared key itself. */
  method WordMaskCirc(input: array<octet>, output: array<octet>, length: nat, k: bv64, le: bool) returns (k': bv64)
    requires length <= input.Length && length <= output.Length
    modifies output
    ensures output[..length] == WordCirc(old(input[..length]), Octets(k, le))
    ensures output[length..] == old(output[length..])
    ensures k' == PieceKeyBits(WordPiece(old(input[..length])), k, le)
  {
    var n := length / 8;
    var l := length - n * 8;
    var key := Octets(k, le);
    MaskWords(input, output, n, k, le, key);
    MaskRest(input, output, length, l, key);
    k' := CircshiftBits(k, l, le);
  }

  /** The loop behind it, over the octets of the prepared key. */
  method MaskRest(input: array<octet>, output: array<octet>, length: nat, l: nat, key: Word)
    requires length <= input.Length && length <= output.Length && l == length % 8
    modifies output
    ensures forall m :: length - l <= m < length ==> output[m] == old(input[m]) ^ key[m % 8]
    ensures forall m :: 0 <= m < output.Length && !(length - l <= m < length) ==> output[m] == old(output[m])
  {
    var start := length - l;
    for i := 0 to l
      invariant forall m :: start <= m < start + i ==> output[m] == old(input[m]) ^ key[m % 8]
      invariant forall m :: start + i <= m < input.Length ==> input[m] == old(input[m])
      invariant forall m :: 0 <= m < output.Length && !(start <= m < start + i) ==> output[m] == old(output[m])
    {
      assert (start + i) % 8 == i;
      output[start + i] := input[start + i] ^ key[i];
    }
  }

  /** byte_mask_circ. */
  method ByteMaskCirc(input: array<octet>, output: array<octet>, length: nat, k: bv64, le: bool) returns (k': bv64)
    requires length <= input.Length && length <= output.Length
    modifies output
    ensures output[..length] == ByteCirc(old(input[..length]), Octets(k, le), le)
    ensures output[length..] == old(output[length..])
    ensures k' == PieceKeyBits(BytePiece(old(input[..length])), k, le)
  {
    var c := LowOctets(k, le);
    LowOctetsAreHalf(k, le);
    for i := 0 to length
      invariant forall m :: 0 <= m < i ==> output[m] == old(input[m]) ^ c[m % 4]
      invariant forall m :: i <= m < input.Length ==> input[m] == old(input[m])
      invariant forall m :: i <= m < output.Length ==> output[m] == old(output[m])
    {
      output[i] := input[i] ^ c[i % 4];
    }
    k' := CircshiftBits(k, length % 4, le);
  }
}
