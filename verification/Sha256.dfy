/** The streaming SHA-256 of the run record (src/io/RunRecord.cpp:34-144) against the hash of the
    whole padded message as FIPS 180-4 defines it. */
module Sha256s {

  newtype Byte = x: int | 0 <= x < 256
  type Word = bv32

  const TWO_TO_THE_64 := 0x1_0000_0000_0000_0000

  // ----- FIPS 180-4: functions and constants (sections 4.1.2 and 4.2.2)

  function Rotr(x: Word, n: nat): Word
    requires 0 < n < 32
  {
    (x >> n) | (x << (32 - n))
  }

  /** Addition modulo 2^32. */
  function Plus(x: Word, y: Word): Word { x + y }

  function Ch(x: Word, y: Word, z: Word): Word { (x & y) ^ (!x & z) }
  function Maj(x: Word, y: Word, z: Word): Word { (x & y) ^ (x & z) ^ (y & z) }
  function UpperSigma0(x: Word): Word { Rotr(x, 2) ^ Rotr(x, 13) ^ Rotr(x, 22) }
  function UpperSigma1(x: Word): Word { Rotr(x, 6) ^ Rotr(x, 11) ^ Rotr(x, 25) }
  function LowerSigma0(x: Word): Word { Rotr(x, 7) ^ Rotr(x, 18) ^ (x >> 3) }
  function LowerSigma1(x: Word): Word { Rotr(x, 17) ^ Rotr(x, 19) ^ (x >> 10) }

  function RoundConstants(): (k: seq<Word>)
    ensures |k| == 64
  {
    [
      0x428a2f98, 0x71374491, 0xb5c0fbcf, 0xe9b5dba5, 0x3956c25b, 0x59f111f1, 0x923f82a4, 0xab1c5ed5,
      0xd807aa98, 0x12835b01, 0x243185be, 0x550c7dc3, 0x72be5d74, 0x80deb1fe, 0x9bdc06a7, 0xc19bf174,
      0xe49b69c1, 0xefbe4786, 0x0fc19dc6, 0x240ca1cc, 0x2de92c6f, 0x4a7484aa, 0x5cb0a9dc, 0x76f988da,
      0x983e5152, 0xa831c66d, 0xb00327c8, 0xbf597fc7, 0xc6e00bf3, 0xd5a79147, 0x06ca6351, 0x14292967,
      0x27b70a85, 0x2e1b2138, 0x4d2c6dfc, 0x53380d13, 0x650a7354, 0x766a0abb, 0x81c2c92e, 0x92722c85,
      0xa2bfe8a1, 0xa81a664b, 0xc24b8b70, 0xc76c51a3, 0xd192e819, 0xd6990624, 0xf40e3585, 0x106aa070,
      0x19a4c116, 0x1e376c08, 0x2748774c, 0x34b0bcb5, 0x391c0cb3, 0x4ed8aa4a, 0x5b9cca4f, 0x682e6ff3,
      0x748f82ee, 0x78a5636f, 0x84c87814, 0x8cc70208, 0x90befffa, 0xa4506ceb, 0xbef9a3f7, 0xc67178f2
    ]
  }

  /** Eight words: a hash value, or the working variables of a round. */
  datatype Octet = Octet(a: Word, b: Word, c: Word, d: Word, e: Word, f: Word, g: Word, h: Word)

  /** The initial hash value (section 5.3.3). */
  const INITIAL := Octet(0x6a09e667, 0xbb67ae85, 0x3c6ef372, 0xa54ff53a, 0x510e527f, 0x9b05688c, 0x1f83d9ab, 0x5be0cd19)

  // ----- FIPS 180-4: one block (section 6.2.2)

  function BigEndian(p: seq<Byte>, t: nat): Word
    requires 4 * t + 3 < |p|
  {
    (p[4 * t] as Word << 24) | (p[4 * t + 1] as Word << 16) | (p[4 * t + 2] as Word << 8) | p[4 * t + 3] as Word
  }

  /** The message schedule, its sum in the order the program adds (addition modulo 2^32 commutes). */
  function W(p: seq<Byte>, t: nat): Word
    requires |p| == 64
  {
    if t < 16 then BigEndian(p, t)
    else Plus(Plus(Plus(W(p, t - 16), LowerSigma0(W(p, t - 15))), W(p, t - 7)), LowerSigma1(W(p, t - 2)))
  }

  function Round(v: Octet, k: Word, w: Word): Octet {
    var t1 := Plus(Plus(Plus(Plus(v.h, UpperSigma1(v.e)), Ch(v.e, v.f, v.g)), k), w);
    var t2 := Plus(UpperSigma0(v.a), Maj(v.a, v.b, v.c));
    Octet(Plus(t1, t2), v.a, v.b, v.c, Plus(v.d, t1), v.e, v.f, v.g)
  }

  function Rounds(v: Octet, p: seq<Byte>, t: nat): Octet
    requires |p| == 64 && t <= 64
  {
    if t == 0 then v else Round(Rounds(v, p, t - 1), RoundConstants()[t - 1], W(p, t - 1))
  }

  function Added(x: Octet, y: Octet): Octet {
    Octet(Plus(x.a, y.a), Plus(x.b, y.b), Plus(x.c, y.c), Plus(x.d, y.d),
          Plus(x.e, y.e), Plus(x.f, y.f), Plus(x.g, y.g), Plus(x.h, y.h))
  }

  function Compressed(h: Octet, p: seq<Byte>): Octet
    requires |p| == 64
  {
    Added(h, Rounds(h, p, 64))
  }

  // ----- FIPS 180-4: padding and the hash (sections 5.1.1, 5.2.1 and 6.2)

  /** The hash value after the first n blocks. */
  function Folded(message: seq<Byte>, n: nat): Octet
    requires 64 * n <= |message|
  {
    if n == 0 then INITIAL else Compressed(Folded(message, n - 1), message[64 * (n - 1)..64 * n])
  }

  function Zeros(n: nat): (z: seq<Byte>)
    ensures |z| == n
  {
    seq(n, _ => 0)
  }

  /** The zero bytes that pad a message of n bytes, after the byte 0x80, to 56 modulo 64. */
  function ZeroCount(n: nat): (z: nat)
    ensures (n + 1 + z) % 64 == 56 && z < 64
  {
    (119 - n % 64) % 64
  }

  /** x without its last k bytes, that is x shifted right by 8 k bits. */
  function ShiftedBytes(x: nat, k: nat): nat { if k == 0 then x else ShiftedBytes(x / 256, k - 1) }

  /** The last n bytes of x, the most significant first. */
  function BytesOf(x: nat, n: nat): (s: seq<Byte>)
    ensures |s| == n
  {
    if n == 0 then [] else BytesOf(x / 256, n - 1) + [(x % 256) as Byte]
  }

  lemma {:induction false} ByteAt(x: nat, n: nat, i: nat)
    requires i < n
    ensures BytesOf(x, n)[i] as int == ShiftedBytes(x, n - 1 - i) % 256
    decreases n
  {
    if i + 1 < n { ByteAt(x / 256, n - 1, i); }
  }

  /** The padded message: the byte 0x80, zero bytes, and the length in bits as eight bytes. */
  function Padded(message: seq<Byte>): (s: seq<Byte>)
    ensures |s| == |message| + 9 + ZeroCount(|message|)
  {
    message + [0x80] + Zeros(ZeroCount(|message|)) + BytesOf(Bits(|message|), 8)
  }

  /** A message's length in bits, as the 64-bit counter holds it. */
  function Bits(n: nat): nat { 8 * n % TWO_TO_THE_64 }

  /** Whether y zero bytes pad n bytes, the byte 0x80 and the eight length bytes to whole blocks. */
  predicate WholeBlocks(n: nat, y: nat) { (n + 1 + y + 8) % 64 == 0 }

  /** The padded message is whole blocks, with the fewest zero bytes that achieve it. */
  lemma PaddingIsLeast(message: seq<Byte>)
    ensures |Padded(message)| % 64 == 0
    ensures forall z: nat :: WholeBlocks(|message|, z) ==> ZeroCount(|message|) <= z
  {
    hide Padded, ZeroCount;
    BlockArithmetic(|message|, ZeroCount(|message|));
  }

  lemma BlockArithmetic(n: nat, z: nat)
    requires (n + 1 + z) % 64 == 56 && z < 64
    ensures (n + 9 + z) % 64 == 0
    ensures forall y: nat :: WholeBlocks(n, y) ==> z <= y
  {
  }

  function HexDigit(d: Word): char
    requires d < 16
  {
    "0123456789abcdef"[d as int]
  }

  /** A word as eight hexadecimal digits, leading zeros kept. */
  function HexWord(w: Word): (s: string)
    ensures |s| == 8
  {
    [HexDigit((w >> 28) & 0xf), HexDigit((w >> 24) & 0xf), HexDigit((w >> 20) & 0xf), HexDigit((w >> 16) & 0xf),
     HexDigit((w >> 12) & 0xf), HexDigit((w >> 8) & 0xf), HexDigit((w >> 4) & 0xf), HexDigit(w & 0xf)]
  }

  /** The hash of a whole message. */
  function Digest(message: seq<Byte>): string { Hex(Folded(Padded(message), |Padded(message)| / 64)) }

  /** A number can be read back from its bytes. */
  function NumberFrom(s: seq<Byte>): nat { if s == [] then 0 else 256 * NumberFrom(s[..|s| - 1]) + s[|s| - 1] as int }

  function BytePower(n: nat): nat { if n == 0 then 1 else 256 * BytePower(n - 1) }

  lemma {:induction false} NumberRead(x: nat, n: nat)
    requires x < BytePower(n)
    ensures NumberFrom(BytesOf(x, n)) == x
  {
    if n > 0 { NumberRead(x / 256, n - 1); }
  }

  lemma EightBytes()
    ensures BytePower(8) == TWO_TO_THE_64
  {
    assert BytePower(4) == 0x1_0000_0000;
  }

  /** Main result on the padding: below 2^64 bits no two messages pad to the same blocks. */
  lemma PaddingIsInjective(m: seq<Byte>, n: seq<Byte>)
    requires 8 * |m| < TWO_TO_THE_64 && 8 * |n| < TWO_TO_THE_64 && Padded(m) == Padded(n)
    ensures m == n
  {
    hide Zeros, ZeroCount, BytesOf, NumberFrom, BytePower;
    var s := Padded(m);
    assert s[|s| - 8..] == BytesOf(8 * |m|, 8) && s[|s| - 8..] == BytesOf(8 * |n|, 8);
    EightBytes();
    NumberRead(8 * |m|, 8);
    NumberRead(8 * |n|, 8);
    assert s[..|m|] == m && s[..|n|] == n;
  }

  // ----- folding a growing message

  /** Blocks already there are not affected by what follows. */
  lemma {:induction false} FoldedPrefix(m: seq<Byte>, more: seq<Byte>, n: nat)
    requires 64 * n <= |m|
    ensures Folded(m + more, n) == Folded(m, n)
  {
    hide Compressed;
    if n > 0 {
      FoldedPrefix(m, more, n - 1);
      assert (m + more)[64 * (n - 1)..64 * n] == m[64 * (n - 1)..64 * n];
    }
  }

  lemma FoldedNext(m: seq<Byte>, n: nat)
    requires 64 * (n + 1) <= |m|
    ensures Folded(m, n + 1) == Compressed(Folded(m, n), m[64 * n..64 * (n + 1)])
  {
  }

  /** The schedule's recurrence, summed in the order the loop adds it. */
  lemma ScheduleNext(p: seq<Byte>, t: nat)
    requires |p| == 64 && 16 <= t
    ensures W(p, t) == Plus(Plus(Plus(W(p, t - 16), LowerSigma0(W(p, t - 15))), W(p, t - 7)), LowerSigma1(W(p, t - 2)))
  {
    hide LowerSigma0, LowerSigma1, BigEndian, Plus;
  }

  lemma ScheduleFirst(p: seq<Byte>, t: nat)
    requires |p| == 64 && t < 16
    ensures W(p, t) == BigEndian(p, t)
  {
  }

  /** A round in terms of its eight variables. */
  lemma RoundMoves(a: Word, b: Word, c: Word, d: Word, e: Word, f: Word, g: Word, h: Word, k: Word, w: Word)
    ensures var t1 := Plus(Plus(Plus(Plus(h, UpperSigma1(e)), Ch(e, f, g)), k), w);
      Round(Octet(a, b, c, d, e, f, g, h), k, w)
        == Octet(Plus(t1, Plus(UpperSigma0(a), Maj(a, b, c))), a, b, c, Plus(d, t1), e, f, g)
  {
    hide UpperSigma0, UpperSigma1, Ch, Maj, Plus;
  }

  lemma RoundsNext(v: Octet, p: seq<Byte>, t: nat)
    requires |p| == 64 && t < 64
    ensures Rounds(v, p, 0) == v && Rounds(v, p, t + 1) == Round(Rounds(v, p, t), RoundConstants()[t], W(p, t))
  {
    hide Round, RoundConstants, W;
  }

  lemma Wholes(n: nat, more: nat)
    requires n % 64 + more <= 64
    ensures n % 64 + more < 64 ==> (n + more) / 64 == n / 64 && (n + more) % 64 == n % 64 + more
    ensures n % 64 + more == 64 ==> (n + more) / 64 == n / 64 + 1 && (n + more) % 64 == 0
  {
  }

  /** The hash value after a message's whole blocks, and the bytes after them. */
  ghost function Done(m: seq<Byte>): Octet { Folded(m, |m| / 64) }
  ghost function Tail(m: seq<Byte>): (t: seq<Byte>)
    ensures |t| == |m| % 64
  {
    m[|m| - |m| % 64..]
  }

  /** Bytes that do not fill the block leave the hash value alone. */
  lemma StillWaiting(m: seq<Byte>, more: seq<Byte>)
    requires |Tail(m)| + |more| < 64
    ensures Done(m + more) == Done(m) && Tail(m + more) == Tail(m) + more
  {
    hide Folded;
    Wholes(|m|, |more|);
    FoldedPrefix(m, more, |m| / 64);
  }

  /** Bytes that fill the block fold it in. */
  lemma BlockFull(m: seq<Byte>, more: seq<Byte>)
    requires |Tail(m)| + |more| == 64
    ensures Done(m + more) == Compressed(Done(m), Tail(m) + more) && Tail(m + more) == []
  {
    hide Folded, Compressed;
    Wholes(|m|, |more|);
    var n := |m| / 64;
    FoldedPrefix(m, more, n);
    FoldedNext(m + more, n);
    assert (m + more)[64 * n..64 * (n + 1)] == Tail(m) + more;
  }

  // ----- the streaming state

  class Sha256 {
    const h: array<Word>
    const block: array<Byte>
    var blockLen: nat
    var totalBits: nat
    ghost var fed: seq<Byte>

    ghost predicate Shaped() {
      h.Length == 8 && block.Length == 64
    }

    ghost function HashValue(): Octet
      requires Shaped()
      reads h
    {
      Octet(h[0], h[1], h[2], h[3], h[4], h[5], h[6], h[7])
    }

    /** The state after the bytes fed so far: full blocks folded, the rest waiting. */
    ghost predicate Valid()
      reads this, h, block
    {
      && Shaped() && blockLen == |Tail(fed)| && HashValue() == Done(fed) && block[..blockLen] == Tail(fed)
    }

    constructor ()
      ensures Valid() && fed == [] && totalBits == 0 && fresh(h) && fresh(block)
    {
      h := new Word[] [0x6a09e667, 0xbb67ae85, 0x3c6ef372, 0xa54ff53a, 0x510e527f, 0x9b05688c, 0x1f83d9ab, 0x5be0cd19];
      block := new Byte[64](_ => 0);
      blockLen, totalBits := 0, 0;
      fed := [];
    }

    /** The message schedule of the block, in place. */
    method Schedule() returns (w: array<Word>)
      requires Shaped()
      ensures fresh(w) && w.Length == 64 && forall t: nat :: t < 64 ==> w[t] == W(block[..], t)
    {
      hide LowerSigma0, LowerSigma1, BigEndian, W, Plus;
      w := new Word[64](_ => 0);
      var p := block[..];
      for i: nat := 0 to 16
        invariant forall t: nat :: t < i ==> w[t] == W(p, t)
      {
        ScheduleFirst(p, i);
        w[i] := BigEndian(p, i);
      }
      for i: nat := 16 to 64
        invariant forall t: nat :: t < i ==> w[t] == W(p, t)
      {
        var s0, s1 := LowerSigma0(w[i - 15]), LowerSigma1(w[i - 2]);
        ScheduleNext(p, i);
        w[i] := Plus(Plus(Plus(w[i - 16], s0), w[i - 7]), s1);
      }
    }

    /** The sixty-four rounds on the working variables. */
    method Mix(w: array<Word>) returns (v: Octet)
      requires Shaped() && w.Length == 64 && forall t: nat :: t < 64 ==> w[t] == W(block[..], t)
      ensures v == Rounds(HashValue(), block[..], 64)
    {
      ghost var start, p := HashValue(), block[..];
      var k := RoundConstants();
      var a, b, c, d, e, f, g, hh := h[0], h[1], h[2], h[3], h[4], h[5], h[6], h[7];
      hide *;
      RoundsNext(start, p, 0);
      for i: nat := 0 to 64
        invariant Octet(a, b, c, d, e, f, g, hh) == Rounds(start, p, i)
      {
        RoundsNext(start, p, i);
        RoundMoves(a, b, c, d, e, f, g, hh, k[i], w[i]);
        var s1 := UpperSigma1(e);
        var ch := Ch(e, f, g);
        var t1 := Plus(Plus(Plus(Plus(hh, s1), ch), k[i]), w[i]);
        var s0 := UpperSigma0(a);
        var maj := Maj(a, b, c);
        var t2 := Plus(s0, maj);
        hh := g;
        g := f;
        f := e;
        e := Plus(d, t1);
        d := c;
        c := b;
        b := a;
        a := Plus(t1, t2);
      }
      return Octet(a, b, c, d, e, f, g, hh);
    }

    method Accumulate(v: Octet)
      requires Shaped()
      modifies h
      ensures HashValue() == Added(old(HashValue()), v)
    {
      hide Plus;
      h[0], h[1], h[2], h[3] := Plus(h[0], v.a), Plus(h[1], v.b), Plus(h[2], v.c), Plus(h[3], v.d);
      h[4], h[5], h[6], h[7] := Plus(h[4], v.e), Plus(h[5], v.f), Plus(h[6], v.g), Plus(h[7], v.h);
    }

    method Compress()
      requires Shaped()
      modifies h
      ensures HashValue() == Compressed(old(HashValue()), block[..])
    {
      hide Rounds, Added, HashValue;
      var w := Schedule();
      var v := Mix(w);
      Accumulate(v);
    }
  
    /** The bytes' turn in the block, and the compression when it is full. */
    method Absorb(piece: seq<Byte>)
      requires Valid() && 0 < |piece| <= 64 - blockLen
      modifies this, h, block
      ensures Valid() && fed == old(fed) + piece && totalBits == old(totalBits)
    {
      hide Done, Tail, Compressed, HashValue;
      ghost var start := block[..blockLen];
      ghost var before := fed;
      forall q | 0 <= q < |piece| { block[blockLen + q] := piece[q]; }
      blockLen := blockLen + |piece|;
      fed := fed + piece;
      assert block[..blockLen] == start + piece;
      if blockLen == block.Length {
        assert block[..] == start + piece;
        BlockFull(before, piece);
        Compress();
        blockLen := 0;
      } else {
        StillWaiting(before, piece);
      }
    }

    /** The copy loop of an update. */
    method Feed(data: seq<Byte>)
      requires Valid()
      modifies this, h, block
      ensures Valid() && fed == old(fed) + data && totalBits == old(totalBits)
    {
      hide Done, Tail, HashValue;
      var at: nat := 0;
      while at < |data|
        invariant at <= |data| && Valid() && fed == old(fed) + data[..at] && totalBits == old(totalBits)
      {
        var take := if |data| - at < block.Length - blockLen then |data| - at else block.Length - blockLen;
        Absorb(data[at..at + take]);
        assert data[..at] + data[at..at + take] == data[..at + take];
        at := at + take;
      }
      assert data[..at] == data;
    }

    method Update(data: seq<Byte>)
      requires Valid()
      modifies this, h, block
      ensures Valid() && fed == old(fed) + data && totalBits == (old(totalBits) + 8 * |data|) % TWO_TO_THE_64
    {
      totalBits := (totalBits + 8 * |data|) % TWO_TO_THE_64;
      Feed(data);
    }

    /** The padding and the digest. */
    method Finish() returns (digest: string)
      requires Valid() && totalBits == Bits(|fed|)
      modifies this, h, block
      ensures digest == Digest(old(fed))
    {
      hide Done, Tail, HashValue, BytesOf, Digest, Zeros, ZeroCount, Bits, Hex;
      ghost var message := fed;
      ghost var n: nat := 0;
      var bits := totalBits;
      Update([0x80]);
      NoZeros(message);
      while blockLen != 56
        invariant Valid() && n <= ZeroCount(|message|) && fed == message + [0x80] + Zeros(n)
        decreases ZeroCount(|message|) - n
      {
        ZerosGoOn(message, n);
        Update([0x00]);
        totalBits := (totalBits + TWO_TO_THE_64 - 8) % TWO_TO_THE_64;
        n := n + 1;
      }
      ZerosDone(message, n);
      var lenBytes := WriteLength(bits);
      totalBits := bits;
      Update(lenBytes);
      PaddedIs(message, bits);
      digest := WriteHash();
      DigestIs(message);
    }

    /** The bit count as eight bytes, by shifts. */
    static method WriteLength(bits: nat) returns (s: seq<Byte>)
      ensures s == BytesOf(bits, 8)
    {
      var lenBytes := new Byte[8](_ => 0);
      for i: nat := 0 to 8
        invariant forall n: nat :: n < i ==> lenBytes[n] == BytesOf(bits, 8)[n]
      {
        ByteAt(bits, 8, i);
        lenBytes[i] := (ShiftedBytes(bits, 7 - i) % 256) as Byte;
      }
      s := lenBytes[..];
    }

    method WriteHash() returns (hex: string)
      requires Shaped()
      ensures hex == Hex(HashValue())
    {
      hide HexWord;
      hex := "";
      for n: nat := 0 to h.Length
        invariant hex == HexPrefix(HashValue(), n)
      {
        hex := hex + HexWord(h[n]);
      }
    }
  }

  /** The first n words of a hash value in hexadecimal. */
  function HexPrefix(v: Octet, n: nat): string
    requires n <= 8
  {
    if n == 0 then ""
    else HexPrefix(v, n - 1) + HexWord(match n case 1 => v.a case 2 => v.b case 3 => v.c case 4 => v.d
                                       case 5 => v.e case 6 => v.f case 7 => v.g case 8 => v.h)
  }

  function Hex(v: Octet): string { HexPrefix(v, 8) }

  lemma NoZeros(m: seq<Byte>)
    ensures m + [0x80] + Zeros(0) == m + [0x80]
  {
  }

  /** Until the block holds 56 bytes, more zeros are due. */
  lemma ZerosGoOn(m: seq<Byte>, n: nat)
    requires n <= ZeroCount(|m|) && |Tail(m + [0x80] + Zeros(n))| != 56
    ensures n < ZeroCount(|m|) && m + [0x80] + Zeros(n) + [0x00] == m + [0x80] + Zeros(n + 1)
  {
    assert Zeros(n + 1) == Zeros(n) + [0x00];
  }

  lemma ZerosDone(m: seq<Byte>, n: nat)
    requires n <= ZeroCount(|m|) && |Tail(m + [0x80] + Zeros(n))| == 56
    ensures n == ZeroCount(|m|)
  {
  }

  lemma PaddedIs(m: seq<Byte>, bits: nat)
    requires bits == Bits(|m|)
    ensures m + [0x80] + Zeros(ZeroCount(|m|)) + BytesOf(bits, 8) == Padded(m)
  {
  }

  lemma DigestIs(message: seq<Byte>)
    ensures Digest(message) == Hex(Done(Padded(message)))
  {
  }

  /** The pieces of a message put together. */
  function Concat(pieces: seq<seq<Byte>>): seq<Byte> {
    if pieces == [] then [] else Concat(pieces[..|pieces| - 1]) + pieces[|pieces| - 1]
  }

  /** Main result: however a message is split into updates, the digest is that of the whole
      message hashed at once. */
  method HashPieces(pieces: seq<seq<Byte>>) returns (digest: string)
    ensures digest == Digest(Concat(pieces))
  {
    hide Done, Tail, Digest, Bits, Folded;
    var sha := new Sha256();
    BitsAdd(0, 0);
    for n: nat := 0 to |pieces|
      invariant sha.Valid() && fresh(sha) && fresh(sha.h) && fresh(sha.block)
      invariant sha.fed == Concat(pieces[..n]) && sha.totalBits == Bits(|sha.fed|)
    {
      BitsAdd(|sha.fed|, |pieces[n]|);
      sha.Update(pieces[n]);
      assert pieces[..n + 1][..n] == pieces[..n];
    }
    assert pieces[..|pieces|] == pieces;
    digest := sha.Finish();
  }

  lemma BitsAdd(n: nat, more: nat)
    ensures Bits(0) == 0 && (Bits(n) + 8 * more) % TWO_TO_THE_64 == Bits(n + more)
  {
    var q := 8 * n / TWO_TO_THE_64;
    assert 8 * n == q * TWO_TO_THE_64 + Bits(n);
  }
}
