/** The worked example of FIPS 180-4: the digest of "abc", round by round. */
module Sha1Example {
  import opened Sha1Spec

  const ABC: seq<byte> := [0x61, 0x62, 0x63]

  const BLOCK: Block := [0x61626380, 0, 0, 0, 0, 0, 0, 0, 0, 0, 0, 0, 0, 0, 0, 0x18]

  // After t rounds: the working variables, and the next 16 words of the schedule.
  ghost predicate At(t: nat, a: Word, b: Word, c: Word, d: Word, e: Word,
                     w0: Word, w1: Word, w2: Word, w3: Word, w4: Word, w5: Word, w6: Word, w7: Word,
                     w8: Word, w9: Word, w10: Word, w11: Word, w12: Word, w13: Word, w14: Word, w15: Word) {
    && Rounds(H0, BLOCK, t) == Digest(a, b, c, d, e)
    && W(BLOCK, t) == w0 && W(BLOCK, t + 1) == w1 && W(BLOCK, t + 2) == w2 && W(BLOCK, t + 3) == w3
    && W(BLOCK, t + 4) == w4 && W(BLOCK, t + 5) == w5 && W(BLOCK, t + 6) == w6 && W(BLOCK, t + 7) == w7
    && W(BLOCK, t + 8) == w8 && W(BLOCK, t + 9) == w9 && W(BLOCK, t + 10) == w10 && W(BLOCK, t + 11) == w11
    && W(BLOCK, t + 12) == w12 && W(BLOCK, t + 13) == w13 && W(BLOCK, t + 14) == w14 && W(BLOCK, t + 15) == w15
  }

  function Mixed(a: Word, b: Word, c: Word, d: Word): Word {
    Rotl(a ^ b ^ c ^ d, 1)
  }

  lemma NextW(t: nat, w: Word)
    requires t >= 16 && w == Mixed(W(BLOCK, t - 3), W(BLOCK, t - 8), W(BLOCK, t - 14), W(BLOCK, t - 16))
    ensures W(BLOCK, t) == w
  {
  }

  lemma NextRound(t: nat)
    ensures Rounds(H0, BLOCK, t + 1) == Round(Rounds(H0, BLOCK, t), W(BLOCK, t), t)
  {
  }

  lemma Next(t: nat, a: Word, b: Word, c: Word, d: Word, e: Word,
             w0: Word, w1: Word, w2: Word, w3: Word, w4: Word, w5: Word, w6: Word, w7: Word,
             w8: Word, w9: Word, w10: Word, w11: Word, w12: Word, w13: Word, w14: Word, w15: Word)
    requires At(t, a, b, c, d, e, w0, w1, w2, w3, w4, w5, w6, w7, w8, w9, w10, w11, w12, w13, w14, w15)
    ensures At(t + 1, Sum(Rotl(a, 5), F(t, b, c, d), e, K(t), w0), a, Rotl(b, 30), c, d,
               w1, w2, w3, w4, w5, w6, w7, w8, w9, w10, w11, w12, w13, w14, w15, Mixed(w13, w8, w2, w0))
  {
    hide W, Rounds, Rotl, Sum, F, K, Mixed;
    NextW(t + 16, Mixed(w13, w8, w2, w0));
    NextRound(t);
  }

  lemma Start()
    ensures At(0, 0x67452301, 0xefcdab89, 0x98badcfe, 0x10325476, 0xc3d2e1f0,
               0x61626380, 0, 0, 0, 0, 0, 0, 0,
               0, 0, 0, 0, 0, 0, 0, 0x00000018)
  {
    hide Rotl, K, F, Sum;
  }

  lemma From0()
    requires At(0, 0x67452301, 0xefcdab89, 0x98badcfe, 0x10325476, 0xc3d2e1f0,
                0x61626380, 0, 0, 0, 0, 0, 0, 0,
                0, 0, 0, 0, 0, 0, 0, 0x00000018)
    ensures At(20, 0xfd9e1d7d, 0xdc64901d, 0x20aa99ca, 0xd3a49608, 0xc82f758b,
               0, 0x00000060, 0x0b131c03, 0x00000030, 0x85898ec1, 0x16263806, 0, 0x00000180,
               0x2c4c700c, 0x000000f0, 0x93afb507, 0x5898e048, 0x8e9a9202, 0x00000600, 0xb131c0f0, 0x16263bc6)
  {
    hide At;
    Next(0, 0x67452301, 0xefcdab89, 0x98badcfe, 0x10325476, 0xc3d2e1f0,
         0x61626380, 0, 0, 0, 0, 0, 0, 0,
         0, 0, 0, 0, 0, 0, 0, 0x00000018);
    Next(1, 0x0116fc33, 0x67452301, 0x7bf36ae2, 0x98badcfe, 0x10325476,
         0, 0, 0, 0, 0, 0, 0, 0,
         0, 0, 0, 0, 0, 0, 0x00000018, 0xc2c4c700);
    Next(2, 0x8990536d, 0x0116fc33, 0x59d148c0, 0x7bf36ae2, 0x98badcfe,
         0, 0, 0, 0, 0, 0, 0, 0,
         0, 0, 0, 0, 0, 0x00000018, 0xc2c4c700, 0);
    Next(3, 0xa1390f08, 0x8990536d, 0xc045bf0c, 0x59d148c0, 0x7bf36ae2,
         0, 0, 0, 0, 0, 0, 0, 0,
         0, 0, 0, 0, 0x00000018, 0xc2c4c700, 0, 0x00000030);
    Next(4, 0xcdd8e11b, 0xa1390f08, 0x626414db, 0xc045bf0c, 0x59d148c0,
         0, 0, 0, 0, 0, 0, 0, 0,
         0, 0, 0, 0x00000018, 0xc2c4c700, 0, 0x00000030, 0x85898e01);
    Next(5, 0xcfd499de, 0xcdd8e11b, 0x284e43c2, 0x626414db, 0xc045bf0c,
         0, 0, 0, 0, 0, 0, 0, 0,
         0, 0, 0x00000018, 0xc2c4c700, 0, 0x00000030, 0x85898e01, 0);
    Next(6, 0x3fc7ca40, 0xcfd499de, 0xf3763846, 0x284e43c2, 0x626414db,
         0, 0, 0, 0, 0, 0, 0, 0,
         0, 0x00000018, 0xc2c4c700, 0, 0x00000030, 0x85898e01, 0, 0x00000060);
    Next(7, 0x993e30c1, 0x3fc7ca40, 0xb3f52677, 0xf3763846, 0x284e43c2,
         0, 0, 0, 0, 0, 0, 0, 0,
         0x00000018, 0xc2c4c700, 0, 0x00000030, 0x85898e01, 0, 0x00000060, 0x0b131c03);
    Next(8, 0x9e8c07d4, 0x993e30c1, 0x0ff1f290, 0xb3f52677, 0xf3763846,
         0, 0, 0, 0, 0, 0, 0, 0x00000018,
         0xc2c4c700, 0, 0x00000030, 0x85898e01, 0, 0x00000060, 0x0b131c03, 0x00000030);
    Next(9, 0x4b6ae328, 0x9e8c07d4, 0x664f8c30, 0x0ff1f290, 0xb3f52677,
         0, 0, 0, 0, 0, 0, 0x00000018, 0xc2c4c700,
         0, 0x00000030, 0x85898e01, 0, 0x00000060, 0x0b131c03, 0x00000030, 0x85898ec1);
    Next(10, 0x8351f929, 0x4b6ae328, 0x27a301f5, 0x664f8c30, 0x0ff1f290,
         0, 0, 0, 0, 0, 0x00000018, 0xc2c4c700, 0,
         0x00000030, 0x85898e01, 0, 0x00000060, 0x0b131c03, 0x00000030, 0x85898ec1, 0x16263806);
    Next(11, 0xfbda9e89, 0x8351f929, 0x12dab8ca, 0x27a301f5, 0x664f8c30,
         0, 0, 0, 0, 0x00000018, 0xc2c4c700, 0, 0x00000030,
         0x85898e01, 0, 0x00000060, 0x0b131c03, 0x00000030, 0x85898ec1, 0x16263806, 0);
    Next(12, 0x63188fe4, 0xfbda9e89, 0x60d47e4a, 0x12dab8ca, 0x27a301f5,
         0, 0, 0, 0x00000018, 0xc2c4c700, 0, 0x00000030, 0x85898e01,
         0, 0x00000060, 0x0b131c03, 0x00000030, 0x85898ec1, 0x16263806, 0, 0x00000180);
    Next(13, 0x4607b664, 0x63188fe4, 0x7ef6a7a2, 0x60d47e4a, 0x12dab8ca,
         0, 0, 0x00000018, 0xc2c4c700, 0, 0x00000030, 0x85898e01, 0,
         0x00000060, 0x0b131c03, 0x00000030, 0x85898ec1, 0x16263806, 0, 0x00000180, 0x2c4c700c);
    Next(14, 0x9128f695, 0x4607b664, 0x18c623f9, 0x7ef6a7a2, 0x60d47e4a,
         0, 0x00000018, 0xc2c4c700, 0, 0x00000030, 0x85898e01, 0, 0x00000060,
         0x0b131c03, 0x00000030, 0x85898ec1, 0x16263806, 0, 0x00000180, 0x2c4c700c, 0x000000f0);
    Next(15, 0x196bee77, 0x9128f695, 0x1181ed99, 0x18c623f9, 0x7ef6a7a2,
         0x00000018, 0xc2c4c700, 0, 0x00000030, 0x85898e01, 0, 0x00000060, 0x0b131c03,
         0x00000030, 0x85898ec1, 0x16263806, 0, 0x00000180, 0x2c4c700c, 0x000000f0, 0x93afb507);
    Next(16, 0x20bdd62f, 0x196bee77, 0x644a3da5, 0x1181ed99, 0x18c623f9,
         0xc2c4c700, 0, 0x00000030, 0x85898e01, 0, 0x00000060, 0x0b131c03, 0x00000030,
         0x85898ec1, 0x16263806, 0, 0x00000180, 0x2c4c700c, 0x000000f0, 0x93afb507, 0x5898e048);
    Next(17, 0x4e925823, 0x20bdd62f, 0xc65afb9d, 0x644a3da5, 0x1181ed99,
         0, 0x00000030, 0x85898e01, 0, 0x00000060, 0x0b131c03, 0x00000030, 0x85898ec1,
         0x16263806, 0, 0x00000180, 0x2c4c700c, 0x000000f0, 0x93afb507, 0x5898e048, 0x8e9a9202);
    Next(18, 0x82aa6728, 0x4e925823, 0xc82f758b, 0xc65afb9d, 0x644a3da5,
         0x00000030, 0x85898e01, 0, 0x00000060, 0x0b131c03, 0x00000030, 0x85898ec1, 0x16263806,
         0, 0x00000180, 0x2c4c700c, 0x000000f0, 0x93afb507, 0x5898e048, 0x8e9a9202, 0x00000600);
    Next(19, 0xdc64901d, 0x82aa6728, 0xd3a49608, 0xc82f758b, 0xc65afb9d,
         0x85898e01, 0, 0x00000060, 0x0b131c03, 0x00000030, 0x85898ec1, 0x16263806, 0,
         0x00000180, 0x2c4c700c, 0x000000f0, 0x93afb507, 0x5898e048, 0x8e9a9202, 0x00000600, 0xb131c0f0);
  }

  lemma From20()
    requires At(20, 0xfd9e1d7d, 0xdc64901d, 0x20aa99ca, 0xd3a49608, 0xc82f758b,
                0, 0x00000060, 0x0b131c03, 0x00000030, 0x85898ec1, 0x16263806, 0, 0x00000180,
                0x2c4c700c, 0x000000f0, 0x93afb507, 0x5898e048, 0x8e9a9202, 0x00000600, 0xb131c0f0, 0x16263bc6)
    ensures At(40, 0x32de1cba, 0x4c986405, 0xf718e5cf, 0x03d447f6, 0xf72eec32,
               0xd2e138c4, 0x00000f00, 0x3afb5079, 0x898e04e5, 0xe2ba3c2b, 0x000060c0, 0x053a37cd, 0x74458547,
               0xda9415ed, 0x26380a16, 0x626383a1, 0x4ebf54de, 0x3835b44b, 0x0000f600, 0x1e84c7a3, 0x98e04d98)
  {
    hide At;
    Next(20, 0xfd9e1d7d, 0xdc64901d, 0x20aa99ca, 0xd3a49608, 0xc82f758b,
         0, 0x00000060, 0x0b131c03, 0x00000030, 0x85898ec1, 0x16263806, 0, 0x00000180,
         0x2c4c700c, 0x000000f0, 0x93afb507, 0x5898e048, 0x8e9a9202, 0x00000600, 0xb131c0f0, 0x16263bc6);
    Next(21, 0x1a37b0ca, 0xfd9e1d7d, 0x77192407, 0x20aa99ca, 0xd3a49608,
         0x00000060, 0x0b131c03, 0x00000030, 0x85898ec1, 0x16263806, 0, 0x00000180, 0x2c4c700c,
         0x000000f0, 0x93afb507, 0x5898e048, 0x8e9a9202, 0x00000600, 0xb131c0f0, 0x16263bc6, 0x4ebed41e);
    Next(22, 0x33a23bfc, 0x1a37b0ca, 0x7f67875f, 0x77192407, 0x20aa99ca,
         0x0b131c03, 0x00000030, 0x85898ec1, 0x16263806, 0, 0x00000180, 0x2c4c700c, 0x000000f0,
         0x93afb507, 0x5898e048, 0x8e9a9202, 0x00000600, 0xb131c0f0, 0x16263bc6, 0x4ebed41e, 0x626380a1);
    Next(23, 0x21283486, 0x33a23bfc, 0x868dec32, 0x7f67875f, 0x77192407,
         0x00000030, 0x85898ec1, 0x16263806, 0, 0x00000180, 0x2c4c700c, 0x000000f0, 0x93afb507,
         0x5898e048, 0x8e9a9202, 0x00000600, 0xb131c0f0, 0x16263bc6, 0x4ebed41e, 0x626380a1, 0x16263806);
    Next(24, 0xd541f12d, 0x21283486, 0x0ce88eff, 0x868dec32, 0x7f67875f,
         0x85898ec1, 0x16263806, 0, 0x00000180, 0x2c4c700c, 0x000000f0, 0x93afb507, 0x5898e048,
         0x8e9a9202, 0x00000600, 0xb131c0f0, 0x16263bc6, 0x4ebed41e, 0x626380a1, 0x16263806, 0x000018c0);
    Next(25, 0xc7567dc6, 0xd541f12d, 0x884a0d21, 0x0ce88eff, 0x868dec32,
         0x16263806, 0, 0x00000180, 0x2c4c700c, 0x000000f0, 0x93afb507, 0x5898e048, 0x8e9a9202,
         0x00000600, 0xb131c0f0, 0x16263bc6, 0x4ebed41e, 0x626380a1, 0x16263806, 0x000018c0, 0xd2e138c4);
    Next(26, 0x48413ba4, 0xc7567dc6, 0x75507c4b, 0x884a0d21, 0x0ce88eff,
         0, 0x00000180, 0x2c4c700c, 0x000000f0, 0x93afb507, 0x5898e048, 0x8e9a9202, 0x00000600,
         0xb131c0f0, 0x16263bc6, 0x4ebed41e, 0x626380a1, 0x16263806, 0x000018c0, 0xd2e138c4, 0x00000f00);
    Next(27, 0xbe35fbd5, 0x48413ba4, 0xb1d59f71, 0x75507c4b, 0x884a0d21,
         0x00000180, 0x2c4c700c, 0x000000f0, 0x93afb507, 0x5898e048, 0x8e9a9202, 0x00000600, 0xb131c0f0,
         0x16263bc6, 0x4ebed41e, 0x626380a1, 0x16263806, 0x000018c0, 0xd2e138c4, 0x00000f00, 0x3afb5079);
    Next(28, 0x4aa84d97, 0xbe35fbd5, 0x12104ee9, 0xb1d59f71, 0x75507c4b,
         0x2c4c700c, 0x000000f0, 0x93afb507, 0x5898e048, 0x8e9a9202, 0x00000600, 0xb131c0f0, 0x16263bc6,
         0x4ebed41e, 0x626380a1, 0x16263806, 0x000018c0, 0xd2e138c4, 0x00000f00, 0x3afb5079, 0x898e04e5);
    Next(29, 0x8370b52e, 0x4aa84d97, 0x6f8d7ef5, 0x12104ee9, 0xb1d59f71,
         0x000000f0, 0x93afb507, 0x5898e048, 0x8e9a9202, 0x00000600, 0xb131c0f0, 0x16263bc6, 0x4ebed41e,
         0x626380a1, 0x16263806, 0x000018c0, 0xd2e138c4, 0x00000f00, 0x3afb5079, 0x898e04e5, 0xe2ba3c2b);
    Next(30, 0xc5fbaf5d, 0x8370b52e, 0xd2aa1365, 0x6f8d7ef5, 0x12104ee9,
         0x93afb507, 0x5898e048, 0x8e9a9202, 0x00000600, 0xb131c0f0, 0x16263bc6, 0x4ebed41e, 0x626380a1,
         0x16263806, 0x000018c0, 0xd2e138c4, 0x00000f00, 0x3afb5079, 0x898e04e5, 0xe2ba3c2b, 0x000060c0);
    Next(31, 0x1267b407, 0xc5fbaf5d, 0xa0dc2d4b, 0xd2aa1365, 0x6f8d7ef5,
         0x5898e048, 0x8e9a9202, 0x00000600, 0xb131c0f0, 0x16263bc6, 0x4ebed41e, 0x626380a1, 0x16263806,
         0x000018c0, 0xd2e138c4, 0x00000f00, 0x3afb5079, 0x898e04e5, 0xe2ba3c2b, 0x000060c0, 0x053a37cd);
    Next(32, 0x3b845d33, 0x1267b407, 0x717eebd7, 0xa0dc2d4b, 0xd2aa1365,
         0x8e9a9202, 0x00000600, 0xb131c0f0, 0x16263bc6, 0x4ebed41e, 0x626380a1, 0x16263806, 0x000018c0,
         0xd2e138c4, 0x00000f00, 0x3afb5079, 0x898e04e5, 0xe2ba3c2b, 0x000060c0, 0x053a37cd, 0x74458547);
    Next(33, 0x046faa0a, 0x3b845d33, 0xc499ed01, 0x717eebd7, 0xa0dc2d4b,
         0x00000600, 0xb131c0f0, 0x16263bc6, 0x4ebed41e, 0x626380a1, 0x16263806, 0x000018c0, 0xd2e138c4,
         0x00000f00, 0x3afb5079, 0x898e04e5, 0xe2ba3c2b, 0x000060c0, 0x053a37cd, 0x74458547, 0xda9415ed);
    Next(34, 0x2c0ebc11, 0x046faa0a, 0xcee1174c, 0xc499ed01, 0x717eebd7,
         0xb131c0f0, 0x16263bc6, 0x4ebed41e, 0x626380a1, 0x16263806, 0x000018c0, 0xd2e138c4, 0x00000f00,
         0x3afb5079, 0x898e04e5, 0xe2ba3c2b, 0x000060c0, 0x053a37cd, 0x74458547, 0xda9415ed, 0x26380a16);
    Next(35, 0x21796ad4, 0x2c0ebc11, 0x811bea82, 0xcee1174c, 0xc499ed01,
         0x16263bc6, 0x4ebed41e, 0x626380a1, 0x16263806, 0x000018c0, 0xd2e138c4, 0x00000f00, 0x3afb5079,
         0x898e04e5, 0xe2ba3c2b, 0x000060c0, 0x053a37cd, 0x74458547, 0xda9415ed, 0x26380a16, 0x626383a1);
    Next(36, 0xdcbbb0cb, 0x21796ad4, 0x4b03af04, 0x811bea82, 0xcee1174c,
         0x4ebed41e, 0x626380a1, 0x16263806, 0x000018c0, 0xd2e138c4, 0x00000f00, 0x3afb5079, 0x898e04e5,
         0xe2ba3c2b, 0x000060c0, 0x053a37cd, 0x74458547, 0xda9415ed, 0x26380a16, 0x626383a1, 0x4ebf54de);
    Next(37, 0x0f511fd8, 0xdcbbb0cb, 0x085e5ab5, 0x4b03af04, 0x811bea82,
         0x626380a1, 0x16263806, 0x000018c0, 0xd2e138c4, 0x00000f00, 0x3afb5079, 0x898e04e5, 0xe2ba3c2b,
         0x000060c0, 0x053a37cd, 0x74458547, 0xda9415ed, 0x26380a16, 0x626383a1, 0x4ebf54de, 0x3835b44b);
    Next(38, 0xdc63973f, 0x0f511fd8, 0xf72eec32, 0x085e5ab5, 0x4b03af04,
         0x16263806, 0x000018c0, 0xd2e138c4, 0x00000f00, 0x3afb5079, 0x898e04e5, 0xe2ba3c2b, 0x000060c0,
         0x053a37cd, 0x74458547, 0xda9415ed, 0x26380a16, 0x626383a1, 0x4ebf54de, 0x3835b44b, 0x0000f600);
    Next(39, 0x4c986405, 0xdc63973f, 0x03d447f6, 0xf72eec32, 0x085e5ab5,
         0x000018c0, 0xd2e138c4, 0x00000f00, 0x3afb5079, 0x898e04e5, 0xe2ba3c2b, 0x000060c0, 0x053a37cd,
         0x74458547, 0xda9415ed, 0x26380a16, 0x626383a1, 0x4ebf54de, 0x3835b44b, 0x0000f600, 0x1e84c7a3);
  }

  lemma From40()
    requires At(40, 0x32de1cba, 0x4c986405, 0xf718e5cf, 0x03d447f6, 0xf72eec32,
                0xd2e138c4, 0x00000f00, 0x3afb5079, 0x898e04e5, 0xe2ba3c2b, 0x000060c0, 0x053a37cd, 0x74458547,
                0xda9415ed, 0x26380a16, 0x626383a1, 0x4ebf54de, 0x3835b44b, 0x0000f600, 0x1e84c7a3, 0x98e04d98)
    ensures At(60, 0x3f52de5a, 0x09d785fd, 0x3498bfd4, 0xf211824f, 0xd79915ab,
               0x7ba06619, 0x6380aea2, 0x0ae55269, 0x627b49a1, 0x7cd45c9d, 0x000f0000, 0xfb50753a, 0xec6765e8,
               0xba3c2be2, 0x0060c000, 0x3a37cd05, 0x458546f4, 0xb8599dd6, 0x380a1a26, 0x01e02203, 0xe7cc3456)
  {
    hide At;
    Next(40, 0x32de1cba, 0x4c986405, 0xf718e5cf, 0x03d447f6, 0xf72eec32,
         0xd2e138c4, 0x00000f00, 0x3afb5079, 0x898e04e5, 0xe2ba3c2b, 0x000060c0, 0x053a37cd, 0x74458547,
         0xda9415ed, 0x26380a16, 0x626383a1, 0x4ebf54de, 0x3835b44b, 0x0000f600, 0x1e84c7a3, 0x98e04d98);
    Next(41, 0xfc87dedf, 0x32de1cba, 0x53261901, 0xf718e5cf, 0x03d447f6,
         0x00000f00, 0x3afb5079, 0x898e04e5, 0xe2ba3c2b, 0x000060c0, 0x053a37cd, 0x74458547, 0xda9415ed,
         0x26380a16, 0x626383a1, 0x4ebf54de, 0x3835b44b, 0x0000f600, 0x1e84c7a3, 0x98e04d98, 0x651d16a0);
    Next(42, 0x970a0d5c, 0xfc87dedf, 0x8cb7872e, 0x53261901, 0xf718e5cf,
         0x3afb5079, 0x898e04e5, 0xe2ba3c2b, 0x000060c0, 0x053a37cd, 0x74458547, 0xda9415ed, 0x26380a16,
         0x626383a1, 0x4ebf54de, 0x3835b44b, 0x0000f600, 0x1e84c7a3, 0x98e04d98, 0x651d16a0, 0x62658ca1);
    Next(43, 0x7f193dc5, 0x970a0d5c, 0xff21f7b7, 0x8cb7872e, 0x53261901,
         0x898e04e5, 0xe2ba3c2b, 0x000060c0, 0x053a37cd, 0x74458547, 0xda9415ed, 0x26380a16, 0x626383a1,
         0x4ebf54de, 0x3835b44b, 0x0000f600, 0x1e84c7a3, 0x98e04d98, 0x651d16a0, 0x62658ca1, 0x458544d6);
    Next(44, 0xee1b1aaf, 0x7f193dc5, 0x25c28357, 0xff21f7b7, 0x8cb7872e,
         0xe2ba3c2b, 0x000060c0, 0x053a37cd, 0x74458547, 0xda9415ed, 0x26380a16, 0x626383a1, 0x4ebf54de,
         0x3835b44b, 0x0000f600, 0x1e84c7a3, 0x98e04d98, 0x651d16a0, 0x62658ca1, 0x458544d6, 0x44584cb7);
    Next(45, 0x40f28e09, 0xee1b1aaf, 0x5fc64f71, 0x25c28357, 0xff21f7b7,
         0x000060c0, 0x053a37cd, 0x74458547, 0xda9415ed, 0x26380a16, 0x626383a1, 0x4ebf54de, 0x3835b44b,
         0x0000f600, 0x1e84c7a3, 0x98e04d98, 0x651d16a0, 0x62658ca1, 0x458544d6, 0x44584cb7, 0x7ba06619);
    Next(46, 0x1c51e1f2, 0x40f28e09, 0xfb86c6ab, 0x5fc64f71, 0x25c28357,
         0x053a37cd, 0x74458547, 0xda9415ed, 0x26380a16, 0x626383a1, 0x4ebf54de, 0x3835b44b, 0x0000f600,
         0x1e84c7a3, 0x98e04d98, 0x651d16a0, 0x62658ca1, 0x458544d6, 0x44584cb7, 0x7ba06619, 0x6380aea2);
    Next(47, 0xa01b846c, 0x1c51e1f2, 0x503ca382, 0xfb86c6ab, 0x5fc64f71,
         0x74458547, 0xda9415ed, 0x26380a16, 0x626383a1, 0x4ebf54de, 0x3835b44b, 0x0000f600, 0x1e84c7a3,
         0x98e04d98, 0x651d16a0, 0x62658ca1, 0x458544d6, 0x44584cb7, 0x7ba06619, 0x6380aea2, 0x0ae55269);
    Next(48, 0xbead02ca, 0xa01b846c, 0x8714787c, 0x503ca382, 0xfb86c6ab,
         0xda9415ed, 0x26380a16, 0x626383a1, 0x4ebf54de, 0x3835b44b, 0x0000f600, 0x1e84c7a3, 0x98e04d98,
         0x651d16a0, 0x62658ca1, 0x458544d6, 0x44584cb7, 0x7ba06619, 0x6380aea2, 0x0ae55269, 0x627b49a1);
    Next(49, 0xbaf39337, 0xbead02ca, 0x2806e11b, 0x8714787c, 0x503ca382,
         0x26380a16, 0x626383a1, 0x4ebf54de, 0x3835b44b, 0x0000f600, 0x1e84c7a3, 0x98e04d98, 0x651d16a0,
         0x62658ca1, 0x458544d6, 0x44584cb7, 0x7ba06619, 0x6380aea2, 0x0ae55269, 0x627b49a1, 0x7cd45c9d);
    Next(50, 0x120731c5, 0xbaf39337, 0xafab40b2, 0x2806e11b, 0x8714787c,
         0x626383a1, 0x4ebf54de, 0x3835b44b, 0x0000f600, 0x1e84c7a3, 0x98e04d98, 0x651d16a0, 0x62658ca1,
         0x458544d6, 0x44584cb7, 0x7ba06619, 0x6380aea2, 0x0ae55269, 0x627b49a1, 0x7cd45c9d, 0x000f0000);
    Next(51, 0x641db2ce, 0x120731c5, 0xeebce4cd, 0xafab40b2, 0x2806e11b,
         0x4ebf54de, 0x3835b44b, 0x0000f600, 0x1e84c7a3, 0x98e04d98, 0x651d16a0, 0x62658ca1, 0x458544d6,
         0x44584cb7, 0x7ba06619, 0x6380aea2, 0x0ae55269, 0x627b49a1, 0x7cd45c9d, 0x000f0000, 0xfb50753a);
    Next(52, 0x3847ad66, 0x641db2ce, 0x4481cc71, 0xeebce4cd, 0xafab40b2,
         0x3835b44b, 0x0000f600, 0x1e84c7a3, 0x98e04d98, 0x651d16a0, 0x62658ca1, 0x458544d6, 0x44584cb7,
         0x7ba06619, 0x6380aea2, 0x0ae55269, 0x627b49a1, 0x7cd45c9d, 0x000f0000, 0xfb50753a, 0xec6765e8);
    Next(53, 0xe490436d, 0x3847ad66, 0x99076cb3, 0x4481cc71, 0xeebce4cd,
         0x0000f600, 0x1e84c7a3, 0x98e04d98, 0x651d16a0, 0x62658ca1, 0x458544d6, 0x44584cb7, 0x7ba06619,
         0x6380aea2, 0x0ae55269, 0x627b49a1, 0x7cd45c9d, 0x000f0000, 0xfb50753a, 0xec6765e8, 0xba3c2be2);
    Next(54, 0x27e9f1d8, 0xe490436d, 0x8e11eb59, 0x99076cb3, 0x4481cc71,
         0x1e84c7a3, 0x98e04d98, 0x651d16a0, 0x62658ca1, 0x458544d6, 0x44584cb7, 0x7ba06619, 0x6380aea2,
         0x0ae55269, 0x627b49a1, 0x7cd45c9d, 0x000f0000, 0xfb50753a, 0xec6765e8, 0xba3c2be2, 0x0060c000);
    Next(55, 0x7b71f76d, 0x27e9f1d8, 0x792410db, 0x8e11eb59, 0x99076cb3,
         0x98e04d98, 0x651d16a0, 0x62658ca1, 0x458544d6, 0x44584cb7, 0x7ba06619, 0x6380aea2, 0x0ae55269,
         0x627b49a1, 0x7cd45c9d, 0x000f0000, 0xfb50753a, 0xec6765e8, 0xba3c2be2, 0x0060c000, 0x3a37cd05);
    Next(56, 0x5e6456af, 0x7b71f76d, 0x09fa7c76, 0x792410db, 0x8e11eb59,
         0x651d16a0, 0x62658ca1, 0x458544d6, 0x44584cb7, 0x7ba06619, 0x6380aea2, 0x0ae55269, 0x627b49a1,
         0x7cd45c9d, 0x000f0000, 0xfb50753a, 0xec6765e8, 0xba3c2be2, 0x0060c000, 0x3a37cd05, 0x458546f4);
    Next(57, 0xc846093f, 0x5e6456af, 0x5edc7ddb, 0x09fa7c76, 0x792410db,
         0x62658ca1, 0x458544d6, 0x44584cb7, 0x7ba06619, 0x6380aea2, 0x0ae55269, 0x627b49a1, 0x7cd45c9d,
         0x000f0000, 0xfb50753a, 0xec6765e8, 0xba3c2be2, 0x0060c000, 0x3a37cd05, 0x458546f4, 0xb8599dd6);
    Next(58, 0xd262ff50, 0xc846093f, 0xd79915ab, 0x5edc7ddb, 0x09fa7c76,
         0x458544d6, 0x44584cb7, 0x7ba06619, 0x6380aea2, 0x0ae55269, 0x627b49a1, 0x7cd45c9d, 0x000f0000,
         0xfb50753a, 0xec6765e8, 0xba3c2be2, 0x0060c000, 0x3a37cd05, 0x458546f4, 0xb8599dd6, 0x380a1a26);
    Next(59, 0x09d785fd, 0xd262ff50, 0xf211824f, 0xd79915ab, 0x5edc7ddb,
         0x44584cb7, 0x7ba06619, 0x6380aea2, 0x0ae55269, 0x627b49a1, 0x7cd45c9d, 0x000f0000, 0xfb50753a,
         0xec6765e8, 0xba3c2be2, 0x0060c000, 0x3a37cd05, 0x458546f4, 0xb8599dd6, 0x380a1a26, 0x01e02203);
  }

  lemma From60()
    requires At(60, 0x3f52de5a, 0x09d785fd, 0x3498bfd4, 0xf211824f, 0xd79915ab,
                0x7ba06619, 0x6380aea2, 0x0ae55269, 0x627b49a1, 0x7cd45c9d, 0x000f0000, 0xfb50753a, 0xec6765e8,
                0xba3c2be2, 0x0060c000, 0x3a37cd05, 0x458546f4, 0xb8599dd6, 0x380a1a26, 0x01e02203, 0xe7cc3456)
    ensures At(80, 0x42541b35, 0x5738d5e1, 0x21834873, 0x681e6df6, 0xd8fdf6ad,
               0x7e577ce2, 0x07ef2103, 0x8544e945, 0xeb39dab8, 0xc205991a, 0x80aecb63, 0x7d84ca48, 0x7b499b62,
               0x8e8010a8, 0x4b5b8a77, 0x3216b69a, 0x0507e88d, 0x705bee96, 0x60c0ff00, 0xa28362d0, 0x1da6b91d)
  {
    hide At;
    Next(60, 0x3f52de5a, 0x09d785fd, 0x3498bfd4, 0xf211824f, 0xd79915ab,
         0x7ba06619, 0x6380aea2, 0x0ae55269, 0x627b49a1, 0x7cd45c9d, 0x000f0000, 0xfb50753a, 0xec6765e8,
         0xba3c2be2, 0x0060c000, 0x3a37cd05, 0x458546f4, 0xb8599dd6, 0x380a1a26, 0x01e02203, 0xe7cc3456);
    Next(61, 0xd756c147, 0x3f52de5a, 0x4275e17f, 0x3498bfd4, 0xf211824f,
         0x6380aea2, 0x0ae55269, 0x627b49a1, 0x7cd45c9d, 0x000f0000, 0xfb50753a, 0xec6765e8, 0xba3c2be2,
         0x0060c000, 0x3a37cd05, 0x458546f4, 0xb8599dd6, 0x380a1a26, 0x01e02203, 0xe7cc3456, 0xe6e60b69);
    Next(62, 0x548c9cb2, 0xd756c147, 0x8fd4b796, 0x4275e17f, 0x3498bfd4,
         0x0ae55269, 0x627b49a1, 0x7cd45c9d, 0x000f0000, 0xfb50753a, 0xec6765e8, 0xba3c2be2, 0x0060c000,
         0x3a37cd05, 0x458546f4, 0xb8599dd6, 0x380a1a26, 0x01e02203, 0xe7cc3456, 0xe6e60b69, 0x00f60a00);
    Next(63, 0xb66c020b, 0x548c9cb2, 0xf5d5b051, 0x8fd4b796, 0x4275e17f,
         0x627b49a1, 0x7cd45c9d, 0x000f0000, 0xfb50753a, 0xec6765e8, 0xba3c2be2, 0x0060c000, 0x3a37cd05,
         0x458546f4, 0xb8599dd6, 0x380a1a26, 0x01e02203, 0xe7cc3456, 0xe6e60b69, 0x00f60a00, 0x5795ef4f);
    Next(64, 0x6b61c9e1, 0xb66c020b, 0x9523272c, 0xf5d5b051, 0x8fd4b796,
         0x7cd45c9d, 0x000f0000, 0xfb50753a, 0xec6765e8, 0xba3c2be2, 0x0060c000, 0x3a37cd05, 0x458546f4,
         0xb8599dd6, 0x380a1a26, 0x01e02203, 0xe7cc3456, 0xe6e60b69, 0x00f60a00, 0x5795ef4f, 0x822e0879);
    Next(65, 0x19dfa7ac, 0x6b61c9e1, 0xed9b0082, 0x9523272c, 0xf5d5b051,
         0x000f0000, 0xfb50753a, 0xec6765e8, 0xba3c2be2, 0x0060c000, 0x3a37cd05, 0x458546f4, 0xb8599dd6,
         0x380a1a26, 0x01e02203, 0xe7cc3456, 0xe6e60b69, 0x00f60a00, 0x5795ef4f, 0x822e0879, 0x7e577ce2);
    Next(66, 0x101655f9, 0x19dfa7ac, 0x5ad87278, 0xed9b0082, 0x9523272c,
         0xfb50753a, 0xec6765e8, 0xba3c2be2, 0x0060c000, 0x3a37cd05, 0x458546f4, 0xb8599dd6, 0x380a1a26,
         0x01e02203, 0xe7cc3456, 0xe6e60b69, 0x00f60a00, 0x5795ef4f, 0x822e0879, 0x7e577ce2, 0x07ef2103);
    Next(67, 0x0c3df2b4, 0x101655f9, 0x0677e9eb, 0x5ad87278, 0xed9b0082,
         0xec6765e8, 0xba3c2be2, 0x0060c000, 0x3a37cd05, 0x458546f4, 0xb8599dd6, 0x380a1a26, 0x01e02203,
         0xe7cc3456, 0xe6e60b69, 0x00f60a00, 0x5795ef4f, 0x822e0879, 0x7e577ce2, 0x07ef2103, 0x8544e945);
    Next(68, 0x78dd4d2b, 0x0c3df2b4, 0x4405957e, 0x0677e9eb, 0x5ad87278,
         0xba3c2be2, 0x0060c000, 0x3a37cd05, 0x458546f4, 0xb8599dd6, 0x380a1a26, 0x01e02203, 0xe7cc3456,
         0xe6e60b69, 0x00f60a00, 0x5795ef4f, 0x822e0879, 0x7e577ce2, 0x07ef2103, 0x8544e945, 0xeb39dab8);
    Next(69, 0x497093c0, 0x78dd4d2b, 0x030f7cad, 0x4405957e, 0x0677e9eb,
         0x0060c000, 0x3a37cd05, 0x458546f4, 0xb8599dd6, 0x380a1a26, 0x01e02203, 0xe7cc3456, 0xe6e60b69,
         0x00f60a00, 0x5795ef4f, 0x822e0879, 0x7e577ce2, 0x07ef2103, 0x8544e945, 0xeb39dab8, 0xc205991a);
    Next(70, 0x3f2588c2, 0x497093c0, 0xde37534a, 0x030f7cad, 0x4405957e,
         0x3a37cd05, 0x458546f4, 0xb8599dd6, 0x380a1a26, 0x01e02203, 0xe7cc3456, 0xe6e60b69, 0x00f60a00,
         0x5795ef4f, 0x822e0879, 0x7e577ce2, 0x07ef2103, 0x8544e945, 0xeb39dab8, 0xc205991a, 0x80aecb63);
    Next(71, 0xc199f8c7, 0x3f2588c2, 0x125c24f0, 0xde37534a, 0x030f7cad,
         0x458546f4, 0xb8599dd6, 0x380a1a26, 0x01e02203, 0xe7cc3456, 0xe6e60b69, 0x00f60a00, 0x5795ef4f,
         0x822e0879, 0x7e577ce2, 0x07ef2103, 0x8544e945, 0xeb39dab8, 0xc205991a, 0x80aecb63, 0x7d84ca48);
    Next(72, 0x39859de7, 0xc199f8c7, 0x8fc96230, 0x125c24f0, 0xde37534a,
         0xb8599dd6, 0x380a1a26, 0x01e02203, 0xe7cc3456, 0xe6e60b69, 0x00f60a00, 0x5795ef4f, 0x822e0879,
         0x7e577ce2, 0x07ef2103, 0x8544e945, 0xeb39dab8, 0xc205991a, 0x80aecb63, 0x7d84ca48, 0x7b499b62);
    Next(73, 0xedb42de4, 0x39859de7, 0xf0667e31, 0x8fc96230, 0x125c24f0,
         0x380a1a26, 0x01e02203, 0xe7cc3456, 0xe6e60b69, 0x00f60a00, 0x5795ef4f, 0x822e0879, 0x7e577ce2,
         0x07ef2103, 0x8544e945, 0xeb39dab8, 0xc205991a, 0x80aecb63, 0x7d84ca48, 0x7b499b62, 0x8e8010a8);
    Next(74, 0x11793f6f, 0xedb42de4, 0xce616779, 0xf0667e31, 0x8fc96230,
         0x01e02203, 0xe7cc3456, 0xe6e60b69, 0x00f60a00, 0x5795ef4f, 0x822e0879, 0x7e577ce2, 0x07ef2103,
         0x8544e945, 0xeb39dab8, 0xc205991a, 0x80aecb63, 0x7d84ca48, 0x7b499b62, 0x8e8010a8, 0x4b5b8a77);
    Next(75, 0x5ee76897, 0x11793f6f, 0x3b6d0b79, 0xce616779, 0xf0667e31,
         0xe7cc3456, 0xe6e60b69, 0x00f60a00, 0x5795ef4f, 0x822e0879, 0x7e577ce2, 0x07ef2103, 0x8544e945,
         0xeb39dab8, 0xc205991a, 0x80aecb63, 0x7d84ca48, 0x7b499b62, 0x8e8010a8, 0x4b5b8a77, 0x3216b69a);
    Next(76, 0x63f7dab7, 0x5ee76897, 0xc45e4fdb, 0x3b6d0b79, 0xce616779,
         0xe6e60b69, 0x00f60a00, 0x5795ef4f, 0x822e0879, 0x7e577ce2, 0x07ef2103, 0x8544e945, 0xeb39dab8,
         0xc205991a, 0x80aecb63, 0x7d84ca48, 0x7b499b62, 0x8e8010a8, 0x4b5b8a77, 0x3216b69a, 0x0507e88d);
    Next(77, 0xa079b7d9, 0x63f7dab7, 0xd7b9da25, 0xc45e4fdb, 0x3b6d0b79,
         0x00f60a00, 0x5795ef4f, 0x822e0879, 0x7e577ce2, 0x07ef2103, 0x8544e945, 0xeb39dab8, 0xc205991a,
         0x80aecb63, 0x7d84ca48, 0x7b499b62, 0x8e8010a8, 0x4b5b8a77, 0x3216b69a, 0x0507e88d, 0x705bee96);
    Next(78, 0x860d21cc, 0xa079b7d9, 0xd8fdf6ad, 0xd7b9da25, 0xc45e4fdb,
         0x5795ef4f, 0x822e0879, 0x7e577ce2, 0x07ef2103, 0x8544e945, 0xeb39dab8, 0xc205991a, 0x80aecb63,
         0x7d84ca48, 0x7b499b62, 0x8e8010a8, 0x4b5b8a77, 0x3216b69a, 0x0507e88d, 0x705bee96, 0x60c0ff00);
    Next(79, 0x5738d5e1, 0x860d21cc, 0x681e6df6, 0xd8fdf6ad, 0xd7b9da25,
         0x822e0879, 0x7e577ce2, 0x07ef2103, 0x8544e945, 0xeb39dab8, 0xc205991a, 0x80aecb63, 0x7d84ca48,
         0x7b499b62, 0x8e8010a8, 0x4b5b8a77, 0x3216b69a, 0x0507e88d, 0x705bee96, 0x60c0ff00, 0xa28362d0);
  }

  lemma SmallWords()
    ensures WordOf(0x61, 0x62, 0x63, 0x80) == 0x61626380 && WordOf(0, 0, 0, 0) == 0
    ensures LowWord(24) == 0x18 && HighWord(24) == 0
  {
  }

  const PADDED: seq<byte> := ABC + [0x80] + seq(52, _ => 0)

  lemma PaddedIs()
    ensures Padded(ABC) == PADDED && |PADDED| == 56
    ensures PADDED[0] == 0x61 && PADDED[1] == 0x62 && PADDED[2] == 0x63 && PADDED[3] == 0x80
    ensures forall i | 4 <= i < 56 :: PADDED[i] == 0
  {
  }

  lemma WordsAre()
    ensures |PADDED| == 56 && Words(PADDED) == BLOCK[..14]
  {
    PaddedIs();
    SmallWords();
    hide WordOf, PADDED, Padded;
    forall i | 0 <= i < 14 ensures Words(PADDED)[i] == BLOCK[i] {
    }
  }

  lemma LengthIs()
    ensures LengthWords(ABC) == BLOCK[14..]
  {
    SmallWords();
    hide LowWord, HighWord;
    assert BLOCK[14..] == [0, 0x18];
  }

  lemma PaddedAbc()
    ensures var p := Padded(ABC); |p| == 56 && p[|p| - 56..] == p && p[..|p| - 56] == []
    ensures LastBlock(ABC) == BLOCK
  {
    PaddedIs();
    WordsAre();
    LengthIs();
    hide Words, LengthWords, PADDED, Padded, BLOCK;
    assert PADDED[|PADDED| - 56..] == PADDED;
    assert BLOCK[..14] + BLOCK[14..] == BLOCK;
  }

  // The digest of "abc" is a9993e364706816aba3e25717850c26c9cd0d89d.
  lemma AbcDigest()
    ensures Sha1(ABC) == Digest(0xa9993e36, 0x4706816a, 0xba3e2571, 0x7850c26c, 0x9cd0d89d)
  {
    Start();
    From0();
    From20();
    From40();
    From60();
    PaddedAbc();
    hide At;
    FinalSum();
  }

  lemma FinalSum()
    requires At(80, 0x42541b35, 0x5738d5e1, 0x21834873, 0x681e6df6, 0xd8fdf6ad,
                0x7e577ce2, 0x07ef2103, 0x8544e945, 0xeb39dab8, 0xc205991a, 0x80aecb63, 0x7d84ca48, 0x7b499b62,
                0x8e8010a8, 0x4b5b8a77, 0x3216b69a, 0x0507e88d, 0x705bee96, 0x60c0ff00, 0xa28362d0, 0x1da6b91d)
    ensures HashBlock(H0, BLOCK) == Digest(0xa9993e36, 0x4706816a, 0xba3e2571, 0x7850c26c, 0x9cd0d89d)
  {
    hide W, Rounds;
  }
}
