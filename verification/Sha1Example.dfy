/** An example of the standard: the digest of the three characters "abc" (FIPS 180, example 1), worked out step
    by step. It fixes the constants, the rotations, the message schedule and the padding. */
module Sha1Example {
  import opened Basics
  import opened Sha1

  const ABC: seq<byte> := [0x61, 0x62, 0x63]

  /** Always true. It stands in front of a fact that is taken apart only where it is mentioned. */
  predicate Look(k: int) {
    true
  }

  /** The word `t` of the schedule, and the state after `t` rounds. */
  ghost predicate WordAt(m: block, t: nat, w: bv32) {
    forall k {:trigger Look(k)} :: Look(k) ==> W(m, t) == w
  }

  ghost predicate StateAt(m: block, t: nat, h: Digest) {
    forall k {:trigger Look(k)} :: Look(k) ==> Rounds(INIT, m, t) == h
  }

  lemma NextWord(m: block, t: nat, a: bv32, b: bv32, c: bv32, d: bv32, w: bv32)
    requires t >= 16 && WordAt(m, t - 3, a) && WordAt(m, t - 8, b) && WordAt(m, t - 14, c) && WordAt(m, t - 16, d)
    requires w == Rotl(Mix(a, b, c, d), 1)
    ensures WordAt(m, t, w)
  {
    assert Look(0);
  }

  lemma NextState(m: block, t: nat, h: Digest, w: bv32, g: Digest)
    requires StateAt(m, t, h) && WordAt(m, t, w) && g == Round(h, t, w)
    ensures StateAt(m, t + 1, g)
  {
    assert Look(0);
  }

  // ---------------------------------------------------------------- the block and its words

  ghost predicate Words0(m: block) {
    && WordAt(m, 0, 0x61626380) && WordAt(m, 1, 0x00000000) && WordAt(m, 2, 0x00000000) && WordAt(m, 3, 0x00000000)
    && WordAt(m, 4, 0x00000000) && WordAt(m, 5, 0x00000000) && WordAt(m, 6, 0x00000000) && WordAt(m, 7, 0x00000000)
  }

  ghost predicate Words1(m: block) {
    && WordAt(m, 8, 0x00000000) && WordAt(m, 9, 0x00000000) && WordAt(m, 10, 0x00000000) && WordAt(m, 11, 0x00000000)
    && WordAt(m, 12, 0x00000000) && WordAt(m, 13, 0x00000000) && WordAt(m, 14, 0x00000000) && WordAt(m, 15, 0x00000018)
  }

  ghost predicate Words2(m: block) {
    && WordAt(m, 16, 0xc2c4c700) && WordAt(m, 17, 0x00000000) && WordAt(m, 18, 0x00000030) && WordAt(m, 19, 0x85898e01)
    && WordAt(m, 20, 0x00000000) && WordAt(m, 21, 0x00000060) && WordAt(m, 22, 0x0b131c03) && WordAt(m, 23, 0x00000030)
  }

  ghost predicate Words3(m: block) {
    && WordAt(m, 24, 0x85898ec1) && WordAt(m, 25, 0x16263806) && WordAt(m, 26, 0x00000000) && WordAt(m, 27, 0x00000180)
    && WordAt(m, 28, 0x2c4c700c) && WordAt(m, 29, 0x000000f0) && WordAt(m, 30, 0x93afb507) && WordAt(m, 31, 0x5898e048)
  }

  ghost predicate Words4(m: block) {
    && WordAt(m, 32, 0x8e9a9202) && WordAt(m, 33, 0x00000600) && WordAt(m, 34, 0xb131c0f0) && WordAt(m, 35, 0x16263bc6)
    && WordAt(m, 36, 0x4ebed41e) && WordAt(m, 37, 0x626380a1) && WordAt(m, 38, 0x16263806) && WordAt(m, 39, 0x000018c0)
  }

  ghost predicate Words5(m: block) {
    && WordAt(m, 40, 0xd2e138c4) && WordAt(m, 41, 0x00000f00) && WordAt(m, 42, 0x3afb5079) && WordAt(m, 43, 0x898e04e5)
    && WordAt(m, 44, 0xe2ba3c2b) && WordAt(m, 45, 0x000060c0) && WordAt(m, 46, 0x053a37cd) && WordAt(m, 47, 0x74458547)
  }

  ghost predicate Words6(m: block) {
    && WordAt(m, 48, 0xda9415ed) && WordAt(m, 49, 0x26380a16) && WordAt(m, 50, 0x626383a1) && WordAt(m, 51, 0x4ebf54de)
    && WordAt(m, 52, 0x3835b44b) && WordAt(m, 53, 0x0000f600) && WordAt(m, 54, 0x1e84c7a3) && WordAt(m, 55, 0x98e04d98)
  }

  ghost predicate Words7(m: block) {
    && WordAt(m, 56, 0x651d16a0) && WordAt(m, 57, 0x62658ca1) && WordAt(m, 58, 0x458544d6) && WordAt(m, 59, 0x44584cb7)
    && WordAt(m, 60, 0x7ba06619) && WordAt(m, 61, 0x6380aea2) && WordAt(m, 62, 0x0ae55269) && WordAt(m, 63, 0x627b49a1)
  }

  ghost predicate Words8(m: block) {
    && WordAt(m, 64, 0x7cd45c9d) && WordAt(m, 65, 0x000f0000) && WordAt(m, 66, 0xfb50753a) && WordAt(m, 67, 0xec6765e8)
    && WordAt(m, 68, 0xba3c2be2) && WordAt(m, 69, 0x0060c000) && WordAt(m, 70, 0x3a37cd05) && WordAt(m, 71, 0x458546f4)
  }

  ghost predicate Words9(m: block) {
    && WordAt(m, 72, 0xb8599dd6) && WordAt(m, 73, 0x380a1a26) && WordAt(m, 74, 0x01e02203) && WordAt(m, 75, 0xe7cc3456)
    && WordAt(m, 76, 0xe6e60b69) && WordAt(m, 77, 0x00f60a00) && WordAt(m, 78, 0x5795ef4f) && WordAt(m, 79, 0x822e0879)
  }

  /** The padded message is one block: its bytes are those of the text, one bit, zeros, and the length. */
  lemma OneBlock() returns (m: block)
    ensures Padded(ABC) == m
    ensures m[0] == 0x61 && m[1] == 0x62 && m[2] == 0x63 && m[3] == 0x80 && (forall i | 4 <= i < 63 :: m[i] == 0) && m[63] == 24
  {
    m := Padded(ABC);
    LengthBytes();
    assert Fill(3) == 52 && |ABC| == 3;
    assert m == ABC + [0x80] + Zeros(52) + BigEndian(24, 8);
  }

  lemma LengthBytes()
    ensures BigEndian(24, 8) == Zeros(7) + [24]
  {
    ZeroBytes(7);
    assert BigEndian(24, 8) == BigEndian(0, 7) + [24];
  }

  lemma {:induction false} ZeroBytes(k: nat)
    ensures BigEndian(0, k) == Zeros(k)
    decreases k
  {
    if k > 0 {
      ZeroBytes(k - 1);
      assert Zeros(k) == Zeros(k - 1) + [0];
    }
  }

  lemma FirstWords(m: block)
    requires m[0] == 0x61 && m[1] == 0x62 && m[2] == 0x63 && m[3] == 0x80 && (forall i | 4 <= i < 63 :: m[i] == 0) && m[63] == 24
    ensures Words0(m) && Words1(m)
  {
    assert FromBytes(0x61, 0x62, 0x63, 0x80) == 0x61626380 && FromBytes(0, 0, 0, 24) == 24;
    forall t | 1 <= t < 15 ensures WordAt(m, t, 0) {
      ZeroWord(m, t);
    }
  }

  lemma ZeroWord(m: block, t: nat)
    requires 1 <= t < 15 && forall i | 4 <= i < 63 :: m[i] == 0
    ensures WordAt(m, t, 0)
  {
    assert FromBytes(0, 0, 0, 0) == 0;
    assert Word(m, t) == FromBytes(m[4 * t], m[4 * t + 1], m[4 * t + 2], m[4 * t + 3]);
  }

  lemma MoreWords2(m: block)
    requires Words0(m) && Words1(m)
    ensures Words2(m)
  {
    NextWord(m, 16, 0x00000000, 0x00000000, 0x00000000, 0x61626380, 0xc2c4c700);
    NextWord(m, 17, 0x00000000, 0x00000000, 0x00000000, 0x00000000, 0x00000000);
    NextWord(m, 18, 0x00000018, 0x00000000, 0x00000000, 0x00000000, 0x00000030);
    NextWord(m, 19, 0xc2c4c700, 0x00000000, 0x00000000, 0x00000000, 0x85898e01);
    NextWord(m, 20, 0x00000000, 0x00000000, 0x00000000, 0x00000000, 0x00000000);
    NextWord(m, 21, 0x00000030, 0x00000000, 0x00000000, 0x00000000, 0x00000060);
    NextWord(m, 22, 0x85898e01, 0x00000000, 0x00000000, 0x00000000, 0x0b131c03);
    NextWord(m, 23, 0x00000000, 0x00000018, 0x00000000, 0x00000000, 0x00000030);
  }

  lemma MoreWords3(m: block)
    requires Words1(m) && Words2(m)
    ensures Words3(m)
  {
    NextWord(m, 24, 0x00000060, 0xc2c4c700, 0x00000000, 0x00000000, 0x85898ec1);
    NextWord(m, 25, 0x0b131c03, 0x00000000, 0x00000000, 0x00000000, 0x16263806);
    NextWord(m, 26, 0x00000030, 0x00000030, 0x00000000, 0x00000000, 0x00000000);
    NextWord(m, 27, 0x85898ec1, 0x85898e01, 0x00000000, 0x00000000, 0x00000180);
    NextWord(m, 28, 0x16263806, 0x00000000, 0x00000000, 0x00000000, 0x2c4c700c);
    NextWord(m, 29, 0x00000000, 0x00000060, 0x00000018, 0x00000000, 0x000000f0);
    NextWord(m, 30, 0x00000180, 0x0b131c03, 0xc2c4c700, 0x00000000, 0x93afb507);
    NextWord(m, 31, 0x2c4c700c, 0x00000030, 0x00000000, 0x00000018, 0x5898e048);
  }

  lemma MoreWords4(m: block)
    requires Words2(m) && Words3(m)
    ensures Words4(m)
  {
    NextWord(m, 32, 0x000000f0, 0x85898ec1, 0x00000030, 0xc2c4c700, 0x8e9a9202);
    NextWord(m, 33, 0x93afb507, 0x16263806, 0x85898e01, 0x00000000, 0x00000600);
    NextWord(m, 34, 0x5898e048, 0x00000000, 0x00000000, 0x00000030, 0xb131c0f0);
    NextWord(m, 35, 0x8e9a9202, 0x00000180, 0x00000060, 0x85898e01, 0x16263bc6);
    NextWord(m, 36, 0x00000600, 0x2c4c700c, 0x0b131c03, 0x00000000, 0x4ebed41e);
    NextWord(m, 37, 0xb131c0f0, 0x000000f0, 0x00000030, 0x00000060, 0x626380a1);
    NextWord(m, 38, 0x16263bc6, 0x93afb507, 0x85898ec1, 0x0b131c03, 0x16263806);
    NextWord(m, 39, 0x4ebed41e, 0x5898e048, 0x16263806, 0x00000030, 0x000018c0);
  }

  lemma MoreWords5(m: block)
    requires Words3(m) && Words4(m)
    ensures Words5(m)
  {
    NextWord(m, 40, 0x626380a1, 0x8e9a9202, 0x00000000, 0x85898ec1, 0xd2e138c4);
    NextWord(m, 41, 0x16263806, 0x00000600, 0x00000180, 0x16263806, 0x00000f00);
    NextWord(m, 42, 0x000018c0, 0xb131c0f0, 0x2c4c700c, 0x00000000, 0x3afb5079);
    NextWord(m, 43, 0xd2e138c4, 0x16263bc6, 0x000000f0, 0x00000180, 0x898e04e5);
    NextWord(m, 44, 0x00000f00, 0x4ebed41e, 0x93afb507, 0x2c4c700c, 0xe2ba3c2b);
    NextWord(m, 45, 0x3afb5079, 0x626380a1, 0x5898e048, 0x000000f0, 0x000060c0);
    NextWord(m, 46, 0x898e04e5, 0x16263806, 0x8e9a9202, 0x93afb507, 0x053a37cd);
    NextWord(m, 47, 0xe2ba3c2b, 0x000018c0, 0x00000600, 0x5898e048, 0x74458547);
  }

  lemma MoreWords6(m: block)
    requires Words4(m) && Words5(m)
    ensures Words6(m)
  {
    NextWord(m, 48, 0x000060c0, 0xd2e138c4, 0xb131c0f0, 0x8e9a9202, 0xda9415ed);
    NextWord(m, 49, 0x053a37cd, 0x00000f00, 0x16263bc6, 0x00000600, 0x26380a16);
    NextWord(m, 50, 0x74458547, 0x3afb5079, 0x4ebed41e, 0xb131c0f0, 0x626383a1);
    NextWord(m, 51, 0xda9415ed, 0x898e04e5, 0x626380a1, 0x16263bc6, 0x4ebf54de);
    NextWord(m, 52, 0x26380a16, 0xe2ba3c2b, 0x16263806, 0x4ebed41e, 0x3835b44b);
    NextWord(m, 53, 0x626383a1, 0x000060c0, 0x000018c0, 0x626380a1, 0x0000f600);
    NextWord(m, 54, 0x4ebf54de, 0x053a37cd, 0xd2e138c4, 0x16263806, 0x1e84c7a3);
    NextWord(m, 55, 0x3835b44b, 0x74458547, 0x00000f00, 0x000018c0, 0x98e04d98);
  }

  lemma MoreWords7(m: block)
    requires Words5(m) && Words6(m)
    ensures Words7(m)
  {
    NextWord(m, 56, 0x0000f600, 0xda9415ed, 0x3afb5079, 0xd2e138c4, 0x651d16a0);
    NextWord(m, 57, 0x1e84c7a3, 0x26380a16, 0x898e04e5, 0x00000f00, 0x62658ca1);
    NextWord(m, 58, 0x98e04d98, 0x626383a1, 0xe2ba3c2b, 0x3afb5079, 0x458544d6);
    NextWord(m, 59, 0x651d16a0, 0x4ebf54de, 0x000060c0, 0x898e04e5, 0x44584cb7);
    NextWord(m, 60, 0x62658ca1, 0x3835b44b, 0x053a37cd, 0xe2ba3c2b, 0x7ba06619);
    NextWord(m, 61, 0x458544d6, 0x0000f600, 0x74458547, 0x000060c0, 0x6380aea2);
    NextWord(m, 62, 0x44584cb7, 0x1e84c7a3, 0xda9415ed, 0x053a37cd, 0x0ae55269);
    NextWord(m, 63, 0x7ba06619, 0x98e04d98, 0x26380a16, 0x74458547, 0x627b49a1);
  }

  lemma MoreWords8(m: block)
    requires Words6(m) && Words7(m)
    ensures Words8(m)
  {
    NextWord(m, 64, 0x6380aea2, 0x651d16a0, 0x626383a1, 0xda9415ed, 0x7cd45c9d);
    NextWord(m, 65, 0x0ae55269, 0x62658ca1, 0x4ebf54de, 0x26380a16, 0x000f0000);
    NextWord(m, 66, 0x627b49a1, 0x458544d6, 0x3835b44b, 0x626383a1, 0xfb50753a);
    NextWord(m, 67, 0x7cd45c9d, 0x44584cb7, 0x0000f600, 0x4ebf54de, 0xec6765e8);
    NextWord(m, 68, 0x000f0000, 0x7ba06619, 0x1e84c7a3, 0x3835b44b, 0xba3c2be2);
    NextWord(m, 69, 0xfb50753a, 0x6380aea2, 0x98e04d98, 0x0000f600, 0x0060c000);
    NextWord(m, 70, 0xec6765e8, 0x0ae55269, 0x651d16a0, 0x1e84c7a3, 0x3a37cd05);
    NextWord(m, 71, 0xba3c2be2, 0x627b49a1, 0x62658ca1, 0x98e04d98, 0x458546f4);
  }

  lemma MoreWords9(m: block)
    requires Words7(m) && Words8(m)
    ensures Words9(m)
  {
    NextWord(m, 72, 0x0060c000, 0x7cd45c9d, 0x458544d6, 0x651d16a0, 0xb8599dd6);
    NextWord(m, 73, 0x3a37cd05, 0x000f0000, 0x44584cb7, 0x62658ca1, 0x380a1a26);
    NextWord(m, 74, 0x458546f4, 0xfb50753a, 0x7ba06619, 0x458544d6, 0x01e02203);
    NextWord(m, 75, 0xb8599dd6, 0xec6765e8, 0x6380aea2, 0x44584cb7, 0xe7cc3456);
    NextWord(m, 76, 0x380a1a26, 0xba3c2be2, 0x0ae55269, 0x7ba06619, 0xe6e60b69);
    NextWord(m, 77, 0x01e02203, 0x0060c000, 0x627b49a1, 0x6380aea2, 0x00f60a00);
    NextWord(m, 78, 0xe7cc3456, 0x3a37cd05, 0x7cd45c9d, 0x0ae55269, 0x5795ef4f);
    NextWord(m, 79, 0xe6e60b69, 0x458546f4, 0x000f0000, 0x627b49a1, 0x822e0879);
  }

  // ---------------------------------------------------------------- the rounds

  lemma Rounds0(m: block)
    requires Words0(m) && StateAt(m, 0, INIT)
    ensures StateAt(m, 8, Digest(0x9e8c07d4, 0x993e30c1, 0x0ff1f290, 0xb3f52677, 0xf3763846))
  {
    var h0 := INIT;
    var h1 := Digest(0x0116fc33, 0x67452301, 0x7bf36ae2, 0x98badcfe, 0x10325476);
    NextState(m, 0, h0, 0x61626380, h1);
    var h2 := Digest(0x8990536d, 0x0116fc33, 0x59d148c0, 0x7bf36ae2, 0x98badcfe);
    NextState(m, 1, h1, 0x00000000, h2);
    var h3 := Digest(0xa1390f08, 0x8990536d, 0xc045bf0c, 0x59d148c0, 0x7bf36ae2);
    NextState(m, 2, h2, 0x00000000, h3);
    var h4 := Digest(0xcdd8e11b, 0xa1390f08, 0x626414db, 0xc045bf0c, 0x59d148c0);
    NextState(m, 3, h3, 0x00000000, h4);
    var h5 := Digest(0xcfd499de, 0xcdd8e11b, 0x284e43c2, 0x626414db, 0xc045bf0c);
    NextState(m, 4, h4, 0x00000000, h5);
    var h6 := Digest(0x3fc7ca40, 0xcfd499de, 0xf3763846, 0x284e43c2, 0x626414db);
    NextState(m, 5, h5, 0x00000000, h6);
    var h7 := Digest(0x993e30c1, 0x3fc7ca40, 0xb3f52677, 0xf3763846, 0x284e43c2);
    NextState(m, 6, h6, 0x00000000, h7);
    var h8 := Digest(0x9e8c07d4, 0x993e30c1, 0x0ff1f290, 0xb3f52677, 0xf3763846);
    NextState(m, 7, h7, 0x00000000, h8);
  }

  lemma Rounds1(m: block)
    requires Words1(m) && StateAt(m, 8, Digest(0x9e8c07d4, 0x993e30c1, 0x0ff1f290, 0xb3f52677, 0xf3763846))
    ensures StateAt(m, 16, Digest(0x20bdd62f, 0x196bee77, 0x644a3da5, 0x1181ed99, 0x18c623f9))
  {
    var h0 := Digest(0x9e8c07d4, 0x993e30c1, 0x0ff1f290, 0xb3f52677, 0xf3763846);
    var h1 := Digest(0x4b6ae328, 0x9e8c07d4, 0x664f8c30, 0x0ff1f290, 0xb3f52677);
    NextState(m, 8, h0, 0x00000000, h1);
    var h2 := Digest(0x8351f929, 0x4b6ae328, 0x27a301f5, 0x664f8c30, 0x0ff1f290);
    NextState(m, 9, h1, 0x00000000, h2);
    var h3 := Digest(0xfbda9e89, 0x8351f929, 0x12dab8ca, 0x27a301f5, 0x664f8c30);
    NextState(m, 10, h2, 0x00000000, h3);
    var h4 := Digest(0x63188fe4, 0xfbda9e89, 0x60d47e4a, 0x12dab8ca, 0x27a301f5);
    NextState(m, 11, h3, 0x00000000, h4);
    var h5 := Digest(0x4607b664, 0x63188fe4, 0x7ef6a7a2, 0x60d47e4a, 0x12dab8ca);
    NextState(m, 12, h4, 0x00000000, h5);
    var h6 := Digest(0x9128f695, 0x4607b664, 0x18c623f9, 0x7ef6a7a2, 0x60d47e4a);
    NextState(m, 13, h5, 0x00000000, h6);
    var h7 := Digest(0x196bee77, 0x9128f695, 0x1181ed99, 0x18c623f9, 0x7ef6a7a2);
    NextState(m, 14, h6, 0x00000000, h7);
    var h8 := Digest(0x20bdd62f, 0x196bee77, 0x644a3da5, 0x1181ed99, 0x18c623f9);
    NextState(m, 15, h7, 0x00000018, h8);
  }

  lemma Rounds2(m: block)
    requires Words2(m) && StateAt(m, 16, Digest(0x20bdd62f, 0x196bee77, 0x644a3da5, 0x1181ed99, 0x18c623f9))
    ensures StateAt(m, 24, Digest(0xd541f12d, 0x21283486, 0x0ce88eff, 0x868dec32, 0x7f67875f))
  {
    var h0 := Digest(0x20bdd62f, 0x196bee77, 0x644a3da5, 0x1181ed99, 0x18c623f9);
    var h1 := Digest(0x4e925823, 0x20bdd62f, 0xc65afb9d, 0x644a3da5, 0x1181ed99);
    NextState(m, 16, h0, 0xc2c4c700, h1);
    var h2 := Digest(0x82aa6728, 0x4e925823, 0xc82f758b, 0xc65afb9d, 0x644a3da5);
    NextState(m, 17, h1, 0x00000000, h2);
    var h3 := Digest(0xdc64901d, 0x82aa6728, 0xd3a49608, 0xc82f758b, 0xc65afb9d);
    NextState(m, 18, h2, 0x00000030, h3);
    var h4 := Digest(0xfd9e1d7d, 0xdc64901d, 0x20aa99ca, 0xd3a49608, 0xc82f758b);
    NextState(m, 19, h3, 0x85898e01, h4);
    var h5 := Digest(0x1a37b0ca, 0xfd9e1d7d, 0x77192407, 0x20aa99ca, 0xd3a49608);
    NextState(m, 20, h4, 0x00000000, h5);
    var h6 := Digest(0x33a23bfc, 0x1a37b0ca, 0x7f67875f, 0x77192407, 0x20aa99ca);
    NextState(m, 21, h5, 0x00000060, h6);
    var h7 := Digest(0x21283486, 0x33a23bfc, 0x868dec32, 0x7f67875f, 0x77192407);
    NextState(m, 22, h6, 0x0b131c03, h7);
    var h8 := Digest(0xd541f12d, 0x21283486, 0x0ce88eff, 0x868dec32, 0x7f67875f);
    NextState(m, 23, h7, 0x00000030, h8);
  }

  lemma Rounds3(m: block)
    requires Words3(m) && StateAt(m, 24, Digest(0xd541f12d, 0x21283486, 0x0ce88eff, 0x868dec32, 0x7f67875f))
    ensures StateAt(m, 32, Digest(0x3b845d33, 0x1267b407, 0x717eebd7, 0xa0dc2d4b, 0xd2aa1365))
  {
    var h0 := Digest(0xd541f12d, 0x21283486, 0x0ce88eff, 0x868dec32, 0x7f67875f);
    var h1 := Digest(0xc7567dc6, 0xd541f12d, 0x884a0d21, 0x0ce88eff, 0x868dec32);
    NextState(m, 24, h0, 0x85898ec1, h1);
    var h2 := Digest(0x48413ba4, 0xc7567dc6, 0x75507c4b, 0x884a0d21, 0x0ce88eff);
    NextState(m, 25, h1, 0x16263806, h2);
    var h3 := Digest(0xbe35fbd5, 0x48413ba4, 0xb1d59f71, 0x75507c4b, 0x884a0d21);
    NextState(m, 26, h2, 0x00000000, h3);
    var h4 := Digest(0x4aa84d97, 0xbe35fbd5, 0x12104ee9, 0xb1d59f71, 0x75507c4b);
    NextState(m, 27, h3, 0x00000180, h4);
    var h5 := Digest(0x8370b52e, 0x4aa84d97, 0x6f8d7ef5, 0x12104ee9, 0xb1d59f71);
    NextState(m, 28, h4, 0x2c4c700c, h5);
    var h6 := Digest(0xc5fbaf5d, 0x8370b52e, 0xd2aa1365, 0x6f8d7ef5, 0x12104ee9);
    NextState(m, 29, h5, 0x000000f0, h6);
    var h7 := Digest(0x1267b407, 0xc5fbaf5d, 0xa0dc2d4b, 0xd2aa1365, 0x6f8d7ef5);
    NextState(m, 30, h6, 0x93afb507, h7);
    var h8 := Digest(0x3b845d33, 0x1267b407, 0x717eebd7, 0xa0dc2d4b, 0xd2aa1365);
    NextState(m, 31, h7, 0x5898e048, h8);
  }

  lemma Rounds4(m: block)
    requires Words4(m) && StateAt(m, 32, Digest(0x3b845d33, 0x1267b407, 0x717eebd7, 0xa0dc2d4b, 0xd2aa1365))
    ensures StateAt(m, 40, Digest(0x32de1cba, 0x4c986405, 0xf718e5cf, 0x03d447f6, 0xf72eec32))
  {
    var h0 := Digest(0x3b845d33, 0x1267b407, 0x717eebd7, 0xa0dc2d4b, 0xd2aa1365);
    var h1 := Digest(0x046faa0a, 0x3b845d33, 0xc499ed01, 0x717eebd7, 0xa0dc2d4b);
    NextState(m, 32, h0, 0x8e9a9202, h1);
    var h2 := Digest(0x2c0ebc11, 0x046faa0a, 0xcee1174c, 0xc499ed01, 0x717eebd7);
    NextState(m, 33, h1, 0x00000600, h2);
    var h3 := Digest(0x21796ad4, 0x2c0ebc11, 0x811bea82, 0xcee1174c, 0xc499ed01);
    NextState(m, 34, h2, 0xb131c0f0, h3);
    var h4 := Digest(0xdcbbb0cb, 0x21796ad4, 0x4b03af04, 0x811bea82, 0xcee1174c);
    NextState(m, 35, h3, 0x16263bc6, h4);
    var h5 := Digest(0x0f511fd8, 0xdcbbb0cb, 0x085e5ab5, 0x4b03af04, 0x811bea82);
    NextState(m, 36, h4, 0x4ebed41e, h5);
    var h6 := Digest(0xdc63973f, 0x0f511fd8, 0xf72eec32, 0x085e5ab5, 0x4b03af04);
    NextState(m, 37, h5, 0x626380a1, h6);
    var h7 := Digest(0x4c986405, 0xdc63973f, 0x03d447f6, 0xf72eec32, 0x085e5ab5);
    NextState(m, 38, h6, 0x16263806, h7);
    var h8 := Digest(0x32de1cba, 0x4c986405, 0xf718e5cf, 0x03d447f6, 0xf72eec32);
    NextState(m, 39, h7, 0x000018c0, h8);
  }

  lemma Rounds5(m: block)
    requires Words5(m) && StateAt(m, 40, Digest(0x32de1cba, 0x4c986405, 0xf718e5cf, 0x03d447f6, 0xf72eec32))
    ensures StateAt(m, 48, Digest(0xbead02ca, 0xa01b846c, 0x8714787c, 0x503ca382, 0xfb86c6ab))
  {
    var h0 := Digest(0x32de1cba, 0x4c986405, 0xf718e5cf, 0x03d447f6, 0xf72eec32);
    var h1 := Digest(0xfc87dedf, 0x32de1cba, 0x53261901, 0xf718e5cf, 0x03d447f6);
    NextState(m, 40, h0, 0xd2e138c4, h1);
    var h2 := Digest(0x970a0d5c, 0xfc87dedf, 0x8cb7872e, 0x53261901, 0xf718e5cf);
    NextState(m, 41, h1, 0x00000f00, h2);
    var h3 := Digest(0x7f193dc5, 0x970a0d5c, 0xff21f7b7, 0x8cb7872e, 0x53261901);
    NextState(m, 42, h2, 0x3afb5079, h3);
    var h4 := Digest(0xee1b1aaf, 0x7f193dc5, 0x25c28357, 0xff21f7b7, 0x8cb7872e);
    NextState(m, 43, h3, 0x898e04e5, h4);
    var h5 := Digest(0x40f28e09, 0xee1b1aaf, 0x5fc64f71, 0x25c28357, 0xff21f7b7);
    NextState(m, 44, h4, 0xe2ba3c2b, h5);
    var h6 := Digest(0x1c51e1f2, 0x40f28e09, 0xfb86c6ab, 0x5fc64f71, 0x25c28357);
    NextState(m, 45, h5, 0x000060c0, h6);
    var h7 := Digest(0xa01b846c, 0x1c51e1f2, 0x503ca382, 0xfb86c6ab, 0x5fc64f71);
    NextState(m, 46, h6, 0x053a37cd, h7);
    var h8 := Digest(0xbead02ca, 0xa01b846c, 0x8714787c, 0x503ca382, 0xfb86c6ab);
    NextState(m, 47, h7, 0x74458547, h8);
  }

  lemma Rounds6(m: block)
    requires Words6(m) && StateAt(m, 48, Digest(0xbead02ca, 0xa01b846c, 0x8714787c, 0x503ca382, 0xfb86c6ab))
    ensures StateAt(m, 56, Digest(0x5e6456af, 0x7b71f76d, 0x09fa7c76, 0x792410db, 0x8e11eb59))
  {
    var h0 := Digest(0xbead02ca, 0xa01b846c, 0x8714787c, 0x503ca382, 0xfb86c6ab);
    var h1 := Digest(0xbaf39337, 0xbead02ca, 0x2806e11b, 0x8714787c, 0x503ca382);
    NextState(m, 48, h0, 0xda9415ed, h1);
    var h2 := Digest(0x120731c5, 0xbaf39337, 0xafab40b2, 0x2806e11b, 0x8714787c);
    NextState(m, 49, h1, 0x26380a16, h2);
    var h3 := Digest(0x641db2ce, 0x120731c5, 0xeebce4cd, 0xafab40b2, 0x2806e11b);
    NextState(m, 50, h2, 0x626383a1, h3);
    var h4 := Digest(0x3847ad66, 0x641db2ce, 0x4481cc71, 0xeebce4cd, 0xafab40b2);
    NextState(m, 51, h3, 0x4ebf54de, h4);
    var h5 := Digest(0xe490436d, 0x3847ad66, 0x99076cb3, 0x4481cc71, 0xeebce4cd);
    NextState(m, 52, h4, 0x3835b44b, h5);
    var h6 := Digest(0x27e9f1d8, 0xe490436d, 0x8e11eb59, 0x99076cb3, 0x4481cc71);
    NextState(m, 53, h5, 0x0000f600, h6);
    var h7 := Digest(0x7b71f76d, 0x27e9f1d8, 0x792410db, 0x8e11eb59, 0x99076cb3);
    NextState(m, 54, h6, 0x1e84c7a3, h7);
    var h8 := Digest(0x5e6456af, 0x7b71f76d, 0x09fa7c76, 0x792410db, 0x8e11eb59);
    NextState(m, 55, h7, 0x98e04d98, h8);
  }

  lemma Rounds7(m: block)
    requires Words7(m) && StateAt(m, 56, Digest(0x5e6456af, 0x7b71f76d, 0x09fa7c76, 0x792410db, 0x8e11eb59))
    ensures StateAt(m, 64, Digest(0x6b61c9e1, 0xb66c020b, 0x9523272c, 0xf5d5b051, 0x8fd4b796))
  {
    var h0 := Digest(0x5e6456af, 0x7b71f76d, 0x09fa7c76, 0x792410db, 0x8e11eb59);
    var h1 := Digest(0xc846093f, 0x5e6456af, 0x5edc7ddb, 0x09fa7c76, 0x792410db);
    NextState(m, 56, h0, 0x651d16a0, h1);
    var h2 := Digest(0xd262ff50, 0xc846093f, 0xd79915ab, 0x5edc7ddb, 0x09fa7c76);
    NextState(m, 57, h1, 0x62658ca1, h2);
    var h3 := Digest(0x09d785fd, 0xd262ff50, 0xf211824f, 0xd79915ab, 0x5edc7ddb);
    NextState(m, 58, h2, 0x458544d6, h3);
    var h4 := Digest(0x3f52de5a, 0x09d785fd, 0x3498bfd4, 0xf211824f, 0xd79915ab);
    NextState(m, 59, h3, 0x44584cb7, h4);
    var h5 := Digest(0xd756c147, 0x3f52de5a, 0x4275e17f, 0x3498bfd4, 0xf211824f);
    NextState(m, 60, h4, 0x7ba06619, h5);
    var h6 := Digest(0x548c9cb2, 0xd756c147, 0x8fd4b796, 0x4275e17f, 0x3498bfd4);
    NextState(m, 61, h5, 0x6380aea2, h6);
    var h7 := Digest(0xb66c020b, 0x548c9cb2, 0xf5d5b051, 0x8fd4b796, 0x4275e17f);
    NextState(m, 62, h6, 0x0ae55269, h7);
    var h8 := Digest(0x6b61c9e1, 0xb66c020b, 0x9523272c, 0xf5d5b051, 0x8fd4b796);
    NextState(m, 63, h7, 0x627b49a1, h8);
  }

  lemma Rounds8(m: block)
    requires Words8(m) && StateAt(m, 64, Digest(0x6b61c9e1, 0xb66c020b, 0x9523272c, 0xf5d5b051, 0x8fd4b796))
    ensures StateAt(m, 72, Digest(0x39859de7, 0xc199f8c7, 0x8fc96230, 0x125c24f0, 0xde37534a))
  {
    var h0 := Digest(0x6b61c9e1, 0xb66c020b, 0x9523272c, 0xf5d5b051, 0x8fd4b796);
    var h1 := Digest(0x19dfa7ac, 0x6b61c9e1, 0xed9b0082, 0x9523272c, 0xf5d5b051);
    NextState(m, 64, h0, 0x7cd45c9d, h1);
    var h2 := Digest(0x101655f9, 0x19dfa7ac, 0x5ad87278, 0xed9b0082, 0x9523272c);
    NextState(m, 65, h1, 0x000f0000, h2);
    var h3 := Digest(0x0c3df2b4, 0x101655f9, 0x0677e9eb, 0x5ad87278, 0xed9b0082);
    NextState(m, 66, h2, 0xfb50753a, h3);
    var h4 := Digest(0x78dd4d2b, 0x0c3df2b4, 0x4405957e, 0x0677e9eb, 0x5ad87278);
    NextState(m, 67, h3, 0xec6765e8, h4);
    var h5 := Digest(0x497093c0, 0x78dd4d2b, 0x030f7cad, 0x4405957e, 0x0677e9eb);
    NextState(m, 68, h4, 0xba3c2be2, h5);
    var h6 := Digest(0x3f2588c2, 0x497093c0, 0xde37534a, 0x030f7cad, 0x4405957e);
    NextState(m, 69, h5, 0x0060c000, h6);
    var h7 := Digest(0xc199f8c7, 0x3f2588c2, 0x125c24f0, 0xde37534a, 0x030f7cad);
    NextState(m, 70, h6, 0x3a37cd05, h7);
    var h8 := Digest(0x39859de7, 0xc199f8c7, 0x8fc96230, 0x125c24f0, 0xde37534a);
    NextState(m, 71, h7, 0x458546f4, h8);
  }

  lemma Rounds9(m: block)
    requires Words9(m) && StateAt(m, 72, Digest(0x39859de7, 0xc199f8c7, 0x8fc96230, 0x125c24f0, 0xde37534a))
    ensures StateAt(m, 80, Digest(0x42541b35, 0x5738d5e1, 0x21834873, 0x681e6df6, 0xd8fdf6ad))
  {
    var h0 := Digest(0x39859de7, 0xc199f8c7, 0x8fc96230, 0x125c24f0, 0xde37534a);
    var h1 := Digest(0xedb42de4, 0x39859de7, 0xf0667e31, 0x8fc96230, 0x125c24f0);
    NextState(m, 72, h0, 0xb8599dd6, h1);
    var h2 := Digest(0x11793f6f, 0xedb42de4, 0xce616779, 0xf0667e31, 0x8fc96230);
    NextState(m, 73, h1, 0x380a1a26, h2);
    var h3 := Digest(0x5ee76897, 0x11793f6f, 0x3b6d0b79, 0xce616779, 0xf0667e31);
    NextState(m, 74, h2, 0x01e02203, h3);
    var h4 := Digest(0x63f7dab7, 0x5ee76897, 0xc45e4fdb, 0x3b6d0b79, 0xce616779);
    NextState(m, 75, h3, 0xe7cc3456, h4);
    var h5 := Digest(0xa079b7d9, 0x63f7dab7, 0xd7b9da25, 0xc45e4fdb, 0x3b6d0b79);
    NextState(m, 76, h4, 0xe6e60b69, h5);
    var h6 := Digest(0x860d21cc, 0xa079b7d9, 0xd8fdf6ad, 0xd7b9da25, 0xc45e4fdb);
    NextState(m, 77, h5, 0x00f60a00, h6);
    var h7 := Digest(0x5738d5e1, 0x860d21cc, 0x681e6df6, 0xd8fdf6ad, 0xd7b9da25);
    NextState(m, 78, h6, 0x5795ef4f, h7);
    var h8 := Digest(0x42541b35, 0x5738d5e1, 0x21834873, 0x681e6df6, 0xd8fdf6ad);
    NextState(m, 79, h7, 0x822e0879, h8);
  }

  /** The digest of "abc". */
  lemma DigestOfAbc()
    ensures Sha1.Sha1(ABC) == Digest(0xa9993e36, 0x4706816a, 0xba3e2571, 0x7850c26c, 0x9cd0d89d)
  {
    var m := OneBlock();
    FirstWords(m);
    MoreWords2(m);
    MoreWords3(m);
    MoreWords4(m);
    MoreWords5(m);
    MoreWords6(m);
    MoreWords7(m);
    MoreWords8(m);
    MoreWords9(m);
    assert StateAt(m, 0, INIT);
    Rounds0(m);
    Rounds1(m);
    Rounds2(m);
    Rounds3(m);
    Rounds4(m);
    Rounds5(m);
    Rounds6(m);
    Rounds7(m);
    Rounds8(m);
    Rounds9(m);
    OneBlockHashed(m, Digest(0x42541b35, 0x5738d5e1, 0x21834873, 0x681e6df6, 0xd8fdf6ad));
  }

  lemma OneBlockHashed(m: block, h: Digest)
    requires Padded(ABC) == m && StateAt(m, 80, h)
    ensures Sha1.Sha1(ABC) == Sum(INIT, h)
  {
    assert Look(0) && Padded(ABC)[0..64] == m;
    assert Hash(Padded(ABC), 1) == Compressed(Hash(Padded(ABC), 0), m);
  }
}
