/** SHA-1 fed in pieces (TinySHA1.hpp), against sections 5.1.1 and 6.1.2 of FIPS 180-4. */
module Sha1 {
  import opened Basics

  // ---------------------------------------------------------------- FIPS 180-4

  function Rotl(x: bv32, n: nat): bv32
    requires n in {1, 5, 30}
  {
    if n == 1 then (x << 1) | (x >> 31) else if n == 5 then (x << 5) | (x >> 27) else (x << 30) | (x >> 2)
  }

  /** Addition modulo 2^32. */
  function Plus(x: bv32, y: bv32): bv32 {
    x + y
  }

  function Ch(x: bv32, y: bv32, z: bv32): bv32 {
    (x & y) ^ (!x & z)
  }

  function Maj(x: bv32, y: bv32, z: bv32): bv32 {
    (x & y) ^ (x & z) ^ (y & z)
  }

  function Parity(x: bv32, y: bv32, z: bv32): bv32 {
    x ^ y ^ z
  }

  function F(t: nat, x: bv32, y: bv32, z: bv32): bv32 {
    if t < 20 then Ch(x, y, z) else if 40 <= t < 60 then Maj(x, y, z) else Parity(x, y, z)
  }

  function K(t: nat): bv32 {
    if t < 20 then 0x5A827999 else if t < 40 then 0x6ED9EBA1 else if t < 60 then 0x8F1BBCDC else 0xCA62C1D6
  }

  datatype Digest = Digest(a: bv32, b: bv32, c: bv32, d: bv32, e: bv32)

  const INIT := Digest(0x67452301, 0xEFCDAB89, 0x98BADCFE, 0x10325476, 0xC3D2E1F0)

  type block = b: seq<byte> | |b| == 64 witness seq(64, _ => 0)

  function FromBytes(x: byte, y: byte, z: byte, u: byte): bv32 {
    ((x as bv32) << 24) | ((y as bv32) << 16) | ((z as bv32) << 8) | (u as bv32)
  }

  function Word(m: block, t: nat): bv32
    requires t < 16
  {
    FromBytes(m[4 * t], m[4 * t + 1], m[4 * t + 2], m[4 * t + 3])
  }

  function Mix(x: bv32, y: bv32, z: bv32, u: bv32): bv32 {
    x ^ y ^ z ^ u
  }

  /** The message schedule. */
  function W(m: block, t: nat): bv32
    decreases t
  {
    if t < 16 then Word(m, t) else Rotl(Mix(W(m, t - 3), W(m, t - 8), W(m, t - 14), W(m, t - 16)), 1)
  }

  function Round(h: Digest, t: nat, w: bv32): Digest {
    Digest(Plus(Plus(Plus(Plus(Rotl(h.a, 5), F(t, h.b, h.c, h.d)), h.e), K(t)), w), h.a, Rotl(h.b, 30), h.c, h.d)
  }

  function Rounds(h: Digest, m: block, t: nat): Digest {
    if t == 0 then h else Round(Rounds(h, m, t - 1), t - 1, W(m, t - 1))
  }

  function Sum(g: Digest, h: Digest): Digest {
    Digest(Plus(g.a, h.a), Plus(g.b, h.b), Plus(g.c, h.c), Plus(g.d, h.d), Plus(g.e, h.e))
  }

  function Compressed(h: Digest, m: block): Digest {
    Sum(h, Rounds(h, m, 80))
  }

  /** The hash value after `n` blocks. */
  function Hash(m: seq<byte>, n: nat): Digest
    requires 64 * n <= |m|
  {
    if n == 0 then INIT else Compressed(Hash(m, n - 1), m[64 * (n - 1)..64 * n])
  }

  /** How many zeros bring a message, the byte after it and eight bytes of length to a whole number of blocks. */
  function Fill(n: nat): (k: nat)
    ensures k < 64 && (n + 1 + k + 8) % 64 == 0
  {
    (119 - n % 64) % 64
  }

  function Padded(m: seq<byte>): (s: seq<byte>)
    ensures |s| % 64 == 0
  {
    m + [0x80] + Zeros(Fill(|m|)) + BigEndian(8 * |m|, 8)
  }

  function Sha1(m: seq<byte>): Digest {
    Hash(Padded(m), |Padded(m)| / 64)
  }

  // ---------------------------------------------------------------- the program's forms of the same

  /** The two halves of a rotation share no bit, so either way of joining them will do. */
  function LeftRotate(value: bv32, count: nat): (r: bv32)
    requires count in {1, 5, 30}
    ensures r == Rotl(value, count)
  {
    if count == 1 then (value << 1) ^ (value >> 31) else if count == 5 then (value << 5) ^ (value >> 27) else (value << 30) ^ (value >> 2)
  }

  lemma Chooses(b: bv32, c: bv32, d: bv32)
    ensures (b & c) | (!b & d) == Ch(b, c, d)
  {
  }

  lemma Outvotes(b: bv32, c: bv32, d: bv32)
    ensures (b & c) | (b & d) | (c & d) == Maj(b, c, d)
  {
  }

  /** The program's form of `Ch`. */
  function Chosen(b: bv32, c: bv32, d: bv32): (f: bv32)
    ensures f == Ch(b, c, d)
  {
    Chooses(b, c, d);
    (b & c) | (!b & d)
  }

  /** The program's form of `Maj`. */
  function Voted(b: bv32, c: bv32, d: bv32): (f: bv32)
    ensures f == Maj(b, c, d)
  {
    Outvotes(b, c, d);
    (b & c) | (b & d) | (c & d)
  }

  lemma {:induction false} HashOfLonger(m: seq<byte>, more: seq<byte>, n: nat)
    requires 64 * n <= |m|
    ensures Hash(m + more, n) == Hash(m, n)
  {
    if n > 0 {
      HashOfLonger(m, more, n - 1);
      assert (m + more)[64 * (n - 1)..64 * n] == m[64 * (n - 1)..64 * n];
    }
  }

  /** The padding as it is written: the length loses what does not fit in 32 bits. */
  function ShortPadded(m: seq<byte>): (s: seq<byte>)
    ensures |s| % 64 == 0
  {
    m + [0x80] + Zeros(Fill(|m|)) + BigEndian(8 * |m| % 0x1_0000_0000, 8)
  }

  lemma {:induction false} BigEndianInjective(n: nat, n': nat, k: nat, bound: nat)
    requires n < bound && n' < bound && bound == Power256(k) && BigEndian(n, k) == BigEndian(n', k)
    ensures n == n'
    decreases k
  {
    if k > 0 {
      var s, s' := BigEndian(n, k), BigEndian(n', k);
      assert s[..k - 1] == BigEndian(n / 256, k - 1) && s'[..k - 1] == BigEndian(n' / 256, k - 1);
      assert s[k - 1] == n % 256 && s'[k - 1] == n' % 256;
      BigEndianInjective(n / 256, n' / 256, k - 1, Power256(k - 1));
    }
  }

  function Power256(k: nat): nat {
    if k == 0 then 1 else 256 * Power256(k - 1)
  }

  /** For messages whose length in bits fits in 64 bits, as the standard demands, the padding is right exactly
      below 2^29 bytes. */
  lemma ShortIsRight(m: seq<byte>)
    requires |m| < 0x2000_0000_0000_0000
    ensures ShortPadded(m) == Padded(m) <==> |m| < 0x2000_0000
  {
    LengthFits(8 * |m|);
    SameEnd(m + [0x80] + Zeros(Fill(|m|)), BigEndian(8 * |m|, 8), BigEndian(8 * |m| % 0x1_0000_0000, 8));
  }

  lemma RightDigest(m: seq<byte>)
    ensures |m| < 0x2000_0000 ==> Hash(ShortPadded(m), |ShortPadded(m)| / 64) == Sha1(m)
  {
    if |m| < 0x2000_0000 {
      ShortIsRight(m);
    }
  }

  lemma SameEnd(start: seq<byte>, a: seq<byte>, b: seq<byte>)
    ensures start + a == start + b <==> a == b
  {
    assert (start + a)[|start|..] == a && (start + b)[|start|..] == b;
  }

  lemma LengthFits(n: nat)
    requires n < 0x1_0000_0000_0000_0000
    ensures BigEndian(n, 8) == BigEndian(n % 0x1_0000_0000, 8) <==> n < 0x1_0000_0000
  {
    EightBytes();
    if BigEndian(n, 8) == BigEndian(n % 0x1_0000_0000, 8) {
      BigEndianInjective(n, n % 0x1_0000_0000, 8, Power256(8));
    }
  }

  lemma EightBytes()
    ensures Power256(8) == 0x1_0000_0000_0000_0000
  {
  }

  lemma LengthBytes(n: nat)
    ensures BigEndian(n % 0x1_0000_0000, 8) == [0, 0, 0, 0, n / 0x100_0000 % 256, n / 0x1_0000 % 256, n / 256 % 256, n % 256]
  {
    var x := n % 0x1_0000_0000;
    LowDigits(n);
    var y := x / 256 / 256 / 256;
    FourZeros();
    assert BigEndian(y, 5) == BigEndian(0, 4) + [y];
    assert BigEndian(x / 256 / 256, 6) == BigEndian(y, 5) + [x / 256 / 256 % 256];
    assert BigEndian(x / 256, 7) == BigEndian(x / 256 / 256, 6) + [x / 256 % 256];
  }

  lemma FourZeros()
    ensures BigEndian(0, 4) == [0, 0, 0, 0]
  {
  }

  lemma LowDigits(n: nat)
    ensures var x := n % 0x1_0000_0000;
            && x % 256 == n % 256 && x / 256 % 256 == n / 256 % 256 && x / 256 / 256 % 256 == n / 0x1_0000 % 256
            && x / 256 / 256 / 256 == n / 0x100_0000 % 256
  {
    var q, x := n / 0x1_0000_0000, n % 0x1_0000_0000;
    Shifted(q * 0x100_0000, x);
    Shifted(q * 0x1_0000, x / 256);
    Shifted(q * 256, x / 256 / 256);
    assert n / 0x1_0000 == n / 256 / 256 && n / 0x100_0000 == n / 256 / 256 / 256;
    LastDigit(q, x / 256 / 256 / 256);
  }

  lemma Shifted(q: nat, x: nat)
    ensures (q * 256 + x) / 256 == q + x / 256 && (q * 256 + x) % 256 == x % 256
  {
  }

  lemma LastDigit(q: nat, x: nat)
    requires x < 256
    ensures (q * 256 + x) % 256 == x
  {
  }

  lemma FillIs(n: nat, blocks: nat, index: nat)
    requires n == 64 * blocks + index && index < 64
    ensures var i := if index == 63 then 0 else index + 1;
            Fill(n) == if i > 56 then 120 - i else 56 - i
  {
    assert n % 64 == index;
  }

  lemma LowBits(n: nat)
    ensures n % 0x1_0000_0000_0000_0000 * 8 % 0x1_0000_0000_0000_0000 % 0x1_0000_0000 == 8 * n % 0x1_0000_0000
  {
    var q, r := n / 0x1_0000_0000_0000_0000, n % 0x1_0000_0000_0000_0000;
    var u, v := r * 8 / 0x1_0000_0000_0000_0000, r * 8 % 0x1_0000_0000_0000_0000;
    assert 8 * n == (8 * q + u) * 0x1_0000_0000 * 0x1_0000_0000 + v;
  }

  lemma Tail(m: seq<byte>, x: byte, from: nat)
    requires from <= |m|
    ensures (m + [x])[from..] == m[from..] + [x]
  {
  }

  lemma Wraps(n: nat)
    ensures (n % 0x1_0000_0000_0000_0000 + 1) % 0x1_0000_0000_0000_0000 == (n + 1) % 0x1_0000_0000_0000_0000
  {
  }

  lemma OneMoreZero(m: seq<byte>, n: nat)
    ensures m + Zeros(n) + [0] == m + Zeros(n + 1)
  {
  }

  lemma SmallWord(x: bv32)
    requires x <= 0xFF
    ensures x as int < 256 && (x as int) as bv32 == x
  {
  }

  function ByteOf(x: bv32): (b: byte)
    requires x <= 0xFF
    ensures b as bv32 == x
  {
    SmallWord(x);
    x as int
  }

  /** The bytes of a word, the highest first. */
  function WordBytes(w: bv32): seq<byte> {
    [ByteOf((w >> 24) & 0xFF), ByteOf((w >> 16) & 0xFF), ByteOf((w >> 8) & 0xFF), ByteOf(w & 0xFF)]
  }

  lemma WordBytesBack(w: bv32)
    ensures var s := WordBytes(w); FromBytes(s[0], s[1], s[2], s[3]) == w
  {
    WordOfBytes(w);
  }

  function DigestBytes(h: Digest): (s: seq<byte>)
    ensures |s| == 20
  {
    WordBytes(h.a) + WordBytes(h.b) + WordBytes(h.c) + WordBytes(h.d) + WordBytes(h.e)
  }

  lemma WordOfBytes(w: bv32)
    ensures (((w >> 24) & 0xFF) << 24) | (((w >> 16) & 0xFF) << 16) | (((w >> 8) & 0xFF) << 8) | (w & 0xFF) == w
  {
  }

  class SHA1 {
    const digest: array<bv32>
    const buffer: array<byte>
    var blockByteIndex: nat
    var byteCount: nat
    /** Everything that was fed since the last reset. */
    ghost var fed: seq<byte>
    /** How many blocks of it have been compressed. */
    ghost var blocks: nat

    ghost function Value(): Digest
      requires digest.Length == 5
      reads digest
    {
      Digest(digest[0], digest[1], digest[2], digest[3], digest[4])
    }

    /** The buffer holds what was fed after the blocks. */
    ghost predicate Filled()
      reads this, digest, buffer
    {
      && digest.Length == 5 && buffer.Length == 64 && blockByteIndex <= 64
      && |fed| == 64 * blocks + blockByteIndex && buffer[..blockByteIndex] == fed[64 * blocks..]
      && byteCount == |fed| % 0x1_0000_0000_0000_0000
      && Value() == Hash(fed, blocks)
    }

    ghost predicate Valid()
      reads this, digest, buffer
    {
      Filled() && blockByteIndex < 64
    }

    constructor ()
      ensures Valid() && fresh(digest) && fresh(buffer) && fed == []
    {
      digest, buffer := new bv32[5], new byte[64];
      new;
      Reset();
    }

    method Reset()
      requires digest.Length == 5 && buffer.Length == 64
      modifies this, digest
      ensures Valid() && fed == []
    {
      digest[0] := 0x67452301;
      digest[1] := 0xEFCDAB89;
      digest[2] := 0x98BADCFE;
      digest[3] := 0x10325476;
      digest[4] := 0xC3D2E1F0;
      blockByteIndex := 0;
      byteCount := 0;
      fed, blocks := [], 0;
    }

    /** The first 16 words of the schedule. */
    method LoadWords(w: array<bv32>)
      requires buffer.Length == 64 && w.Length == 80
      modifies w
      ensures forall t | 0 <= t < 16 :: w[t] == W(buffer[..], t)
    {
      var i := 0;
      while i < 16
        invariant i <= 16 && forall t | 0 <= t < i :: w[t] == Word(buffer[..], t)
      {
        w[i] := FromBytes(buffer[i * 4], buffer[i * 4 + 1], buffer[i * 4 + 2], buffer[i * 4 + 3]);
        i := i + 1;
      }
    }

    method ExpandWords(w: array<bv32>, ghost m: block)
      requires w.Length == 80 && forall t | 0 <= t < 16 :: w[t] == W(m, t)
      modifies w
      ensures forall t | 0 <= t < 80 :: w[t] == W(m, t)
    {
      var i := 16;
      while i < 80
        invariant 16 <= i <= 80 && forall t | 0 <= t < i :: w[t] == W(m, t)
      {
        w[i] := LeftRotate(Mix(w[i - 3], w[i - 8], w[i - 14], w[i - 16]), 1);
        i := i + 1;
      }
    }

    /** One turn of the main loop. */
    method Turn(i: nat, word: bv32, a: bv32, b: bv32, c: bv32, d: bv32, e: bv32) returns (temp: bv32, rotated: bv32)
      requires i < 80
      ensures Digest(temp, a, rotated, c, d) == Round(Digest(a, b, c, d, e), i, word)
    {
      var f, k := Function(i, b, c, d);
      rotated := LeftRotate(b, 30);
      temp := Plus(Plus(Plus(Plus(LeftRotate(a, 5), f), e), k), word);
    }

    method Function(i: nat, b: bv32, c: bv32, d: bv32) returns (f: bv32, k: bv32)
      requires i < 80
      ensures f == F(i, b, c, d) && k == K(i)
    {
      if i < 20 {
        f := Chosen(b, c, d);
        k := 0x5A827999;
      } else if i < 40 {
        f := Parity(b, c, d);
        k := 0x6ED9EBA1;
      } else if i < 60 {
        f := Voted(b, c, d);
        k := 0x8F1BBCDC;
      } else {
        f := Parity(b, c, d);
        k := 0xCA62C1D6;
      }
    }

    /** `processBlock`, of the buffer. */
    method ProcessBlock()
      requires digest.Length == 5 && buffer.Length == 64
      modifies digest
      ensures Value() == Compressed(old(Value()), buffer[..])
    {
      ghost var h, m := Value(), buffer[..];
      var w := new bv32[80];
      LoadWords(w);
      ExpandWords(w, m);
      var a, b, c, d, e := digest[0], digest[1], digest[2], digest[3], digest[4];
      var i := 0;
      while i < 80
        invariant i <= 80 && Digest(a, b, c, d, e) == Rounds(h, m, i)
        modifies {}
      {
        var temp, rotated := Turn(i, w[i], a, b, c, d, e);
        e := d;
        d := c;
        c := rotated;
        b := a;
        a := temp;
        i := i + 1;
      }
      AddTo(0, a);
      AddTo(1, b);
      AddTo(2, c);
      AddTo(3, d);
      AddTo(4, e);
    }

    method AddTo(i: nat, x: bv32)
      requires digest.Length == 5 && i < 5
      modifies digest
      ensures digest[i] == Plus(old(digest[i]), x)
      ensures forall j | 0 <= j < 5 && j != i :: digest[j] == old(digest[j])
    {
      digest[i] := digest[i] + x;
    }

    method Store(octet: byte)
      requires Valid()
      modifies this`blockByteIndex, this`byteCount, this`fed, buffer
      ensures Filled() && fed == old(fed) + [octet] && blockByteIndex == old(blockByteIndex) + 1
    {
      HashOfLonger(fed, [octet], blocks);
      Wraps(|fed|);
      buffer[blockByteIndex] := octet;
      blockByteIndex := blockByteIndex + 1;
      byteCount := (byteCount + 1) % 0x1_0000_0000_0000_0000;
      Tail(fed, octet, 64 * blocks);
      fed := fed + [octet];
    }

    method ProcessByte(octet: byte)
      requires Valid()
      modifies this, digest, buffer
      ensures Valid() && fed == old(fed) + [octet]
      ensures blockByteIndex == if old(blockByteIndex) == 63 then 0 else old(blockByteIndex) + 1
    {
      Store(octet);
      if blockByteIndex == 64 {
        blockByteIndex := 0;
        ProcessBlock();
        assert buffer[..] == fed[64 * blocks..64 * (blocks + 1)];
        blocks := blocks + 1;
      }
    }

    method ProcessBytes(data: seq<byte>)
      requires Valid()
      modifies this, digest, buffer
      ensures Valid() && fed == old(fed) + data
    {
      var i := 0;
      while i < |data|
        invariant i <= |data| && Valid() && fed == old(fed) + data[..i]
      {
        ProcessByte(data[i]);
        i := i + 1;
      }
    }

    /** Zeros to the end of the block. */
    method FillBlock()
      requires Valid() && blockByteIndex > 0
      modifies this, digest, buffer
      ensures Valid() && blockByteIndex == 0 && fed == old(fed) + Zeros(64 - old(blockByteIndex))
    {
      ghost var m, zeros := fed, 0;
      assert m + Zeros(0) == m;
      while blockByteIndex != 0
        invariant Valid() && 0 <= zeros && fed == m + Zeros(zeros)
        invariant zeros <= 64 - old(blockByteIndex) && blockByteIndex == if zeros == 64 - old(blockByteIndex) then 0 else old(blockByteIndex) + zeros
        decreases 64 - old(blockByteIndex) - zeros
      {
        OneMoreZero(m, zeros);
        ProcessByte(0);
        zeros := zeros + 1;
      }
    }

    /** Zeros, until eight bytes of the block are left. */
    method FillRest()
      requires Valid() && blockByteIndex <= 56
      modifies this, digest, buffer
      ensures Valid() && blockByteIndex == 56 && fed == old(fed) + Zeros(56 - old(blockByteIndex))
    {
      ghost var m, zeros := fed, 0;
      assert m + Zeros(0) == m;
      while blockByteIndex < 56
        invariant Valid() && 0 <= zeros && fed == m + Zeros(zeros)
        invariant blockByteIndex <= 56 && blockByteIndex == old(blockByteIndex) + zeros
        decreases 56 - blockByteIndex
      {
        OneMoreZero(m, zeros);
        ProcessByte(0);
        zeros := zeros + 1;
      }
    }

    method FillUp()
      requires Valid()
      modifies this, digest, buffer
      ensures Valid() && blockByteIndex == 56
      ensures fed == old(fed) + Zeros(if old(blockByteIndex) > 56 then 120 - old(blockByteIndex) else 56 - old(blockByteIndex))
    {
      if blockByteIndex > 56 {
        ghost var k := 64 - blockByteIndex;
        FillBlock();
        FillRest();
        assert Zeros(k) + Zeros(56) == Zeros(k + 56);
      } else {
        FillRest();
      }
    }

    method ProcessTwo(x: byte, y: byte)
      requires Valid() && blockByteIndex < 63
      modifies this, digest, buffer
      ensures Valid() && fed == old(fed) + [x, y]
      ensures blockByteIndex == if old(blockByteIndex) == 62 then 0 else old(blockByteIndex) + 2
    {
      ProcessByte(x);
      ProcessByte(y);
    }

    method ProcessFour(x: byte, y: byte, z: byte, u: byte)
      requires Valid() && blockByteIndex < 61
      modifies this, digest, buffer
      ensures Valid() && fed == old(fed) + [x, y, z, u]
      ensures blockByteIndex == if old(blockByteIndex) == 60 then 0 else old(blockByteIndex) + 4
    {
      ProcessTwo(x, y);
      ProcessTwo(z, u);
    }

    method WriteLength(bitCount: nat)
      requires Valid() && blockByteIndex == 56
      modifies this, digest, buffer
      ensures Valid() && blockByteIndex == 0 && fed == old(fed) + BigEndian(bitCount % 0x1_0000_0000, 8)
    {
      LengthBytes(bitCount);
      ProcessFour(0, 0, 0, 0);
      ProcessFour(bitCount / 0x100_0000 % 256, bitCount / 0x1_0000 % 256, bitCount / 256 % 256, bitCount % 256);
    }

    /** The padding is fed like anything else. Only 32 bits of the length are written. */
    method Pad()
      requires Valid()
      modifies this, digest, buffer
      ensures Valid() && blockByteIndex == 0 && fed == ShortPadded(old(fed))
    {
      ghost var m := fed;
      FillIs(|fed|, blocks, blockByteIndex);
      LowBits(|fed|);
      var bitCount := byteCount * 8 % 0x1_0000_0000_0000_0000;
      ProcessByte(0x80);
      FillUp();
      assert fed == m + [0x80] + Zeros(Fill(|m|));
      WriteLength(bitCount);
    }

    /** `getDigest` */
    method GetDigest() returns (r: Digest)
      requires Valid()
      modifies this, digest, buffer
      ensures Valid() && fed == ShortPadded(old(fed)) && r == Hash(fed, |fed| / 64)
      ensures |old(fed)| < 0x2000_0000 ==> r == Sha1(old(fed))
    {
      RightDigest(fed);
      Pad();
      assert |fed| / 64 == blocks;
      r := Digest(digest[0], digest[1], digest[2], digest[3], digest[4]);
    }

    /** `getDigestBytes` */
    method GetDigestBytes() returns (r: seq<byte>)
      requires Valid()
      modifies this, digest, buffer
      ensures Valid() && (|old(fed)| < 0x2000_0000 ==> r == DigestBytes(Sha1(old(fed))))
    {
      var d := GetDigest();
      r := WordBytes(d.a) + WordBytes(d.b) + WordBytes(d.c) + WordBytes(d.d) + WordBytes(d.e);
    }
  }
}
