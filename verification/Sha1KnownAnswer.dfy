/** A published digest (section 7.3 of RFC 3174): SHA-1 of "abc" is A9993E364706816ABA3E25717850C26C9CD0D89D. */
module Sha1KnownAnswer {
  import opened Bytes
  import opened Words
  import opened Streaming
  import opened ShaStream
  import Sha1

  const ABC: seq<byte> := [0x61, 0x62, 0x63]

  /** The words of its one block. */
  const BLOCK: seq<word> := [0x61626380, 0, 0, 0, 0, 0, 0, 0, 0, 0, 0, 0, 0, 0, 0, 24]

  /** One word of the schedule in numbers. */
  lemma Word(block: seq<word>, t: nat, a: word, b: word, c: word, d: word, x: word, w: word)
    requires |block| == 16 && t >= 16
    requires Sha1.W(block, t - 3) == a && Sha1.W(block, t - 8) == b && Sha1.W(block, t - 14) == c && Sha1.W(block, t - 16) == d
    requires Sha1.Xor4(a, b, c, d) == x && Sha1.S1(x) == w
    ensures Sha1.W(block, t) == w
  {
  }

  lemma FirstWord(block: seq<word>, t: nat)
    requires |block| == 16 && t < 16
    ensures Sha1.W(block, t) == block[t]
  {
  }

  lemma Words0(z: nat)
    requires z == 0
    ensures Sha1.W(BLOCK, z + 0) == 0x61626380 && Sha1.W(BLOCK, z + 1) == 0x00000000 && Sha1.W(BLOCK, z + 2) == 0x00000000 && Sha1.W(BLOCK, z + 3) == 0x00000000
    ensures Sha1.W(BLOCK, z + 4) == 0x00000000 && Sha1.W(BLOCK, z + 5) == 0x00000000 && Sha1.W(BLOCK, z + 6) == 0x00000000 && Sha1.W(BLOCK, z + 7) == 0x00000000
  {
    FirstWord(BLOCK, 0);
    FirstWord(BLOCK, 1);
    FirstWord(BLOCK, 2);
    FirstWord(BLOCK, 3);
    FirstWord(BLOCK, 4);
    FirstWord(BLOCK, 5);
    FirstWord(BLOCK, 6);
    FirstWord(BLOCK, 7);
    hide Sha1.W;
  }

  lemma Words1(z: nat)
    requires z == 0
    ensures Sha1.W(BLOCK, z + 8) == 0x00000000 && Sha1.W(BLOCK, z + 9) == 0x00000000 && Sha1.W(BLOCK, z + 10) == 0x00000000 && Sha1.W(BLOCK, z + 11) == 0x00000000
    ensures Sha1.W(BLOCK, z + 12) == 0x00000000 && Sha1.W(BLOCK, z + 13) == 0x00000000 && Sha1.W(BLOCK, z + 14) == 0x00000000 && Sha1.W(BLOCK, z + 15) == 0x00000018
  {
    FirstWord(BLOCK, 8);
    FirstWord(BLOCK, 9);
    FirstWord(BLOCK, 10);
    FirstWord(BLOCK, 11);
    FirstWord(BLOCK, 12);
    FirstWord(BLOCK, 13);
    FirstWord(BLOCK, 14);
    FirstWord(BLOCK, 15);
    hide Sha1.W;
  }

  lemma Words2(z: nat)
    requires z == 0
    ensures Sha1.W(BLOCK, z + 16) == 0xc2c4c700 && Sha1.W(BLOCK, z + 17) == 0x00000000 && Sha1.W(BLOCK, z + 18) == 0x00000030 && Sha1.W(BLOCK, z + 19) == 0x85898e01
    ensures Sha1.W(BLOCK, z + 20) == 0x00000000 && Sha1.W(BLOCK, z + 21) == 0x00000060 && Sha1.W(BLOCK, z + 22) == 0x0b131c03 && Sha1.W(BLOCK, z + 23) == 0x00000030
  {
    hide Sha1.W;
    Words0(z);
    Words1(z);
    Word(BLOCK, 16, 0x00000000, 0x00000000, 0x00000000, 0x61626380, 0x61626380, 0xc2c4c700);
    Word(BLOCK, 17, 0x00000000, 0x00000000, 0x00000000, 0x00000000, 0x00000000, 0x00000000);
    Word(BLOCK, 18, 0x00000018, 0x00000000, 0x00000000, 0x00000000, 0x00000018, 0x00000030);
    Word(BLOCK, 19, 0xc2c4c700, 0x00000000, 0x00000000, 0x00000000, 0xc2c4c700, 0x85898e01);
    Word(BLOCK, 20, 0x00000000, 0x00000000, 0x00000000, 0x00000000, 0x00000000, 0x00000000);
    Word(BLOCK, 21, 0x00000030, 0x00000000, 0x00000000, 0x00000000, 0x00000030, 0x00000060);
    Word(BLOCK, 22, 0x85898e01, 0x00000000, 0x00000000, 0x00000000, 0x85898e01, 0x0b131c03);
    Word(BLOCK, 23, 0x00000000, 0x00000018, 0x00000000, 0x00000000, 0x00000018, 0x00000030);
  }

  lemma Words3(z: nat)
    requires z == 0
    ensures Sha1.W(BLOCK, z + 24) == 0x85898ec1 && Sha1.W(BLOCK, z + 25) == 0x16263806 && Sha1.W(BLOCK, z + 26) == 0x00000000 && Sha1.W(BLOCK, z + 27) == 0x00000180
    ensures Sha1.W(BLOCK, z + 28) == 0x2c4c700c && Sha1.W(BLOCK, z + 29) == 0x000000f0 && Sha1.W(BLOCK, z + 30) == 0x93afb507 && Sha1.W(BLOCK, z + 31) == 0x5898e048
  {
    hide Sha1.W;
    Words1(z);
    Words2(z);
    Word(BLOCK, 24, 0x00000060, 0xc2c4c700, 0x00000000, 0x00000000, 0xc2c4c760, 0x85898ec1);
    Word(BLOCK, 25, 0x0b131c03, 0x00000000, 0x00000000, 0x00000000, 0x0b131c03, 0x16263806);
    Word(BLOCK, 26, 0x00000030, 0x00000030, 0x00000000, 0x00000000, 0x00000000, 0x00000000);
    Word(BLOCK, 27, 0x85898ec1, 0x85898e01, 0x00000000, 0x00000000, 0x000000c0, 0x00000180);
    Word(BLOCK, 28, 0x16263806, 0x00000000, 0x00000000, 0x00000000, 0x16263806, 0x2c4c700c);
    Word(BLOCK, 29, 0x00000000, 0x00000060, 0x00000018, 0x00000000, 0x00000078, 0x000000f0);
    Word(BLOCK, 30, 0x00000180, 0x0b131c03, 0xc2c4c700, 0x00000000, 0xc9d7da83, 0x93afb507);
    Word(BLOCK, 31, 0x2c4c700c, 0x00000030, 0x00000000, 0x00000018, 0x2c4c7024, 0x5898e048);
  }

  lemma Words4(z: nat)
    requires z == 0
    ensures Sha1.W(BLOCK, z + 32) == 0x8e9a9202 && Sha1.W(BLOCK, z + 33) == 0x00000600 && Sha1.W(BLOCK, z + 34) == 0xb131c0f0 && Sha1.W(BLOCK, z + 35) == 0x16263bc6
    ensures Sha1.W(BLOCK, z + 36) == 0x4ebed41e && Sha1.W(BLOCK, z + 37) == 0x626380a1 && Sha1.W(BLOCK, z + 38) == 0x16263806 && Sha1.W(BLOCK, z + 39) == 0x000018c0
  {
    hide Sha1.W;
    Words2(z);
    Words3(z);
    Word(BLOCK, 32, 0x000000f0, 0x85898ec1, 0x00000030, 0xc2c4c700, 0x474d4901, 0x8e9a9202);
    Word(BLOCK, 33, 0x93afb507, 0x16263806, 0x85898e01, 0x00000000, 0x00000300, 0x00000600);
    Word(BLOCK, 34, 0x5898e048, 0x00000000, 0x00000000, 0x00000030, 0x5898e078, 0xb131c0f0);
    Word(BLOCK, 35, 0x8e9a9202, 0x00000180, 0x00000060, 0x85898e01, 0x0b131de3, 0x16263bc6);
    Word(BLOCK, 36, 0x00000600, 0x2c4c700c, 0x0b131c03, 0x00000000, 0x275f6a0f, 0x4ebed41e);
    Word(BLOCK, 37, 0xb131c0f0, 0x000000f0, 0x00000030, 0x00000060, 0xb131c050, 0x626380a1);
    Word(BLOCK, 38, 0x16263bc6, 0x93afb507, 0x85898ec1, 0x0b131c03, 0x0b131c03, 0x16263806);
    Word(BLOCK, 39, 0x4ebed41e, 0x5898e048, 0x16263806, 0x00000030, 0x00000c60, 0x000018c0);
  }

  lemma Words5(z: nat)
    requires z == 0
    ensures Sha1.W(BLOCK, z + 40) == 0xd2e138c4 && Sha1.W(BLOCK, z + 41) == 0x00000f00 && Sha1.W(BLOCK, z + 42) == 0x3afb5079 && Sha1.W(BLOCK, z + 43) == 0x898e04e5
    ensures Sha1.W(BLOCK, z + 44) == 0xe2ba3c2b && Sha1.W(BLOCK, z + 45) == 0x000060c0 && Sha1.W(BLOCK, z + 46) == 0x053a37cd && Sha1.W(BLOCK, z + 47) == 0x74458547
  {
    hide Sha1.W;
    Words3(z);
    Words4(z);
    Word(BLOCK, 40, 0x626380a1, 0x8e9a9202, 0x00000000, 0x85898ec1, 0x69709c62, 0xd2e138c4);
    Word(BLOCK, 41, 0x16263806, 0x00000600, 0x00000180, 0x16263806, 0x00000780, 0x00000f00);
    Word(BLOCK, 42, 0x000018c0, 0xb131c0f0, 0x2c4c700c, 0x00000000, 0x9d7da83c, 0x3afb5079);
    Word(BLOCK, 43, 0xd2e138c4, 0x16263bc6, 0x000000f0, 0x00000180, 0xc4c70272, 0x898e04e5);
    Word(BLOCK, 44, 0x00000f00, 0x4ebed41e, 0x93afb507, 0x2c4c700c, 0xf15d1e15, 0xe2ba3c2b);
    Word(BLOCK, 45, 0x3afb5079, 0x626380a1, 0x5898e048, 0x000000f0, 0x00003060, 0x000060c0);
    Word(BLOCK, 46, 0x898e04e5, 0x16263806, 0x8e9a9202, 0x93afb507, 0x829d1be6, 0x053a37cd);
    Word(BLOCK, 47, 0xe2ba3c2b, 0x000018c0, 0x00000600, 0x5898e048, 0xba22c2a3, 0x74458547);
  }

  lemma Words6(z: nat)
    requires z == 0
    ensures Sha1.W(BLOCK, z + 48) == 0xda9415ed && Sha1.W(BLOCK, z + 49) == 0x26380a16 && Sha1.W(BLOCK, z + 50) == 0x626383a1 && Sha1.W(BLOCK, z + 51) == 0x4ebf54de
    ensures Sha1.W(BLOCK, z + 52) == 0x3835b44b && Sha1.W(BLOCK, z + 53) == 0x0000f600 && Sha1.W(BLOCK, z + 54) == 0x1e84c7a3 && Sha1.W(BLOCK, z + 55) == 0x98e04d98
  {
    hide Sha1.W;
    Words4(z);
    Words5(z);
    Word(BLOCK, 48, 0x000060c0, 0xd2e138c4, 0xb131c0f0, 0x8e9a9202, 0xed4a0af6, 0xda9415ed);
    Word(BLOCK, 49, 0x053a37cd, 0x00000f00, 0x16263bc6, 0x00000600, 0x131c050b, 0x26380a16);
    Word(BLOCK, 50, 0x74458547, 0x3afb5079, 0x4ebed41e, 0xb131c0f0, 0xb131c1d0, 0x626383a1);
    Word(BLOCK, 51, 0xda9415ed, 0x898e04e5, 0x626380a1, 0x16263bc6, 0x275faa6f, 0x4ebf54de);
    Word(BLOCK, 52, 0x26380a16, 0xe2ba3c2b, 0x16263806, 0x4ebed41e, 0x9c1ada25, 0x3835b44b);
    Word(BLOCK, 53, 0x626383a1, 0x000060c0, 0x000018c0, 0x626380a1, 0x00007b00, 0x0000f600);
    Word(BLOCK, 54, 0x4ebf54de, 0x053a37cd, 0xd2e138c4, 0x16263806, 0x8f4263d1, 0x1e84c7a3);
    Word(BLOCK, 55, 0x3835b44b, 0x74458547, 0x00000f00, 0x000018c0, 0x4c7026cc, 0x98e04d98);
  }

  lemma Words7(z: nat)
    requires z == 0
    ensures Sha1.W(BLOCK, z + 56) == 0x651d16a0 && Sha1.W(BLOCK, z + 57) == 0x62658ca1 && Sha1.W(BLOCK, z + 58) == 0x458544d6 && Sha1.W(BLOCK, z + 59) == 0x44584cb7
    ensures Sha1.W(BLOCK, z + 60) == 0x7ba06619 && Sha1.W(BLOCK, z + 61) == 0x6380aea2 && Sha1.W(BLOCK, z + 62) == 0x0ae55269 && Sha1.W(BLOCK, z + 63) == 0x627b49a1
  {
    hide Sha1.W;
    Words5(z);
    Words6(z);
    Word(BLOCK, 56, 0x0000f600, 0xda9415ed, 0x3afb5079, 0xd2e138c4, 0x328e8b50, 0x651d16a0);
    Word(BLOCK, 57, 0x1e84c7a3, 0x26380a16, 0x898e04e5, 0x00000f00, 0xb132c650, 0x62658ca1);
    Word(BLOCK, 58, 0x98e04d98, 0x626383a1, 0xe2ba3c2b, 0x3afb5079, 0x22c2a26b, 0x458544d6);
    Word(BLOCK, 59, 0x651d16a0, 0x4ebf54de, 0x000060c0, 0x898e04e5, 0xa22c265b, 0x44584cb7);
    Word(BLOCK, 60, 0x62658ca1, 0x3835b44b, 0x053a37cd, 0xe2ba3c2b, 0xbdd0330c, 0x7ba06619);
    Word(BLOCK, 61, 0x458544d6, 0x0000f600, 0x74458547, 0x000060c0, 0x31c05751, 0x6380aea2);
    Word(BLOCK, 62, 0x44584cb7, 0x1e84c7a3, 0xda9415ed, 0x053a37cd, 0x8572a934, 0x0ae55269);
    Word(BLOCK, 63, 0x7ba06619, 0x98e04d98, 0x26380a16, 0x74458547, 0xb13da4d0, 0x627b49a1);
  }

  lemma Words8(z: nat)
    requires z == 0
    ensures Sha1.W(BLOCK, z + 64) == 0x7cd45c9d && Sha1.W(BLOCK, z + 65) == 0x000f0000 && Sha1.W(BLOCK, z + 66) == 0xfb50753a && Sha1.W(BLOCK, z + 67) == 0xec6765e8
    ensures Sha1.W(BLOCK, z + 68) == 0xba3c2be2 && Sha1.W(BLOCK, z + 69) == 0x0060c000 && Sha1.W(BLOCK, z + 70) == 0x3a37cd05 && Sha1.W(BLOCK, z + 71) == 0x458546f4
  {
    hide Sha1.W;
    Words6(z);
    Words7(z);
    Word(BLOCK, 64, 0x6380aea2, 0x651d16a0, 0x626383a1, 0xda9415ed, 0xbe6a2e4e, 0x7cd45c9d);
    Word(BLOCK, 65, 0x0ae55269, 0x62658ca1, 0x4ebf54de, 0x26380a16, 0x00078000, 0x000f0000);
    Word(BLOCK, 66, 0x627b49a1, 0x458544d6, 0x3835b44b, 0x626383a1, 0x7da83a9d, 0xfb50753a);
    Word(BLOCK, 67, 0x7cd45c9d, 0x44584cb7, 0x0000f600, 0x4ebf54de, 0x7633b2f4, 0xec6765e8);
    Word(BLOCK, 68, 0x000f0000, 0x7ba06619, 0x1e84c7a3, 0x3835b44b, 0x5d1e15f1, 0xba3c2be2);
    Word(BLOCK, 69, 0xfb50753a, 0x6380aea2, 0x98e04d98, 0x0000f600, 0x00306000, 0x0060c000);
    Word(BLOCK, 70, 0xec6765e8, 0x0ae55269, 0x651d16a0, 0x1e84c7a3, 0x9d1be682, 0x3a37cd05);
    Word(BLOCK, 71, 0xba3c2be2, 0x627b49a1, 0x62658ca1, 0x98e04d98, 0x22c2a37a, 0x458546f4);
  }

  lemma Words9(z: nat)
    requires z == 0
    ensures Sha1.W(BLOCK, z + 72) == 0xb8599dd6 && Sha1.W(BLOCK, z + 73) == 0x380a1a26 && Sha1.W(BLOCK, z + 74) == 0x01e02203 && Sha1.W(BLOCK, z + 75) == 0xe7cc3456
    ensures Sha1.W(BLOCK, z + 76) == 0xe6e60b69 && Sha1.W(BLOCK, z + 77) == 0x00f60a00 && Sha1.W(BLOCK, z + 78) == 0x5795ef4f && Sha1.W(BLOCK, z + 79) == 0x822e0879
  {
    hide Sha1.W;
    Words7(z);
    Words8(z);
    Word(BLOCK, 72, 0x0060c000, 0x7cd45c9d, 0x458544d6, 0x651d16a0, 0x5c2cceeb, 0xb8599dd6);
    Word(BLOCK, 73, 0x3a37cd05, 0x000f0000, 0x44584cb7, 0x62658ca1, 0x1c050d13, 0x380a1a26);
    Word(BLOCK, 74, 0x458546f4, 0xfb50753a, 0x7ba06619, 0x458544d6, 0x80f01101, 0x01e02203);
    Word(BLOCK, 75, 0xb8599dd6, 0xec6765e8, 0x6380aea2, 0x44584cb7, 0x73e61a2b, 0xe7cc3456);
    Word(BLOCK, 76, 0x380a1a26, 0xba3c2be2, 0x0ae55269, 0x7ba06619, 0xf37305b4, 0xe6e60b69);
    Word(BLOCK, 77, 0x01e02203, 0x0060c000, 0x627b49a1, 0x6380aea2, 0x007b0500, 0x00f60a00);
    Word(BLOCK, 78, 0xe7cc3456, 0x3a37cd05, 0x7cd45c9d, 0x0ae55269, 0xabcaf7a7, 0x5795ef4f);
    Word(BLOCK, 79, 0xe6e60b69, 0x458546f4, 0x000f0000, 0x627b49a1, 0xc117043c, 0x822e0879);
  }

  /** One round in numbers. */
  lemma Round(block: seq<word>, t: nat, s: Sha1.Digest, s5: word, f: word, w: word, k: word, a: word, s30: word)
    requires |block| == 16 && Sha1.Rounds(INIT, block, t) == s && Sha1.W(block, t) == w && Sha1.K(t) == k
    requires Sha1.S5(s.a) == s5 && Sha1.F(t, s.b, s.c, s.d) == f && Sha1.Temp(s5, f, s.e, w, k) == a && Sha1.S30(s.b) == s30
    ensures Sha1.Rounds(INIT, block, t + 1) == Sha1.Digest(a, s.a, s30, s.c, s.d)
  {
  }

  lemma Begin()
    ensures Sha1.Rounds(INIT, BLOCK, 0) == INIT
  {
  }

  lemma After2()
    ensures Sha1.Rounds(INIT, BLOCK, 2) == Sha1.Digest(0x8990536d, 0x0116fc33, 0x59d148c0, 0x7bf36ae2, 0x98badcfe)
  {
    hide Sha1.Rounds, Sha1.W;
    Begin();
    Words0(0);
    Round(BLOCK, 0, Sha1.Digest(0x67452301, 0xefcdab89, 0x98badcfe, 0x10325476, 0xc3d2e1f0), 0xe8a4602c, 0x98badcfe, 0x61626380, 0x5a827999, 0x0116fc33, 0x7bf36ae2);
    Round(BLOCK, 1, Sha1.Digest(0x0116fc33, 0x67452301, 0x7bf36ae2, 0x98badcfe, 0x10325476), 0x22df8660, 0xfbfbfefe, 0x00000000, 0x5a827999, 0x8990536d, 0x59d148c0);
  }

  lemma After4()
    ensures Sha1.Rounds(INIT, BLOCK, 4) == Sha1.Digest(0xcdd8e11b, 0xa1390f08, 0x626414db, 0xc045bf0c, 0x59d148c0)
  {
    hide Sha1.Rounds, Sha1.W;
    After2();
    Words0(0);
    Round(BLOCK, 2, Sha1.Digest(0x8990536d, 0x0116fc33, 0x59d148c0, 0x7bf36ae2, 0x98badcfe), 0x320a6db1, 0x7bf14ac0, 0x00000000, 0x5a827999, 0xa1390f08, 0xc045bf0c);
    Round(BLOCK, 3, Sha1.Digest(0xa1390f08, 0x8990536d, 0xc045bf0c, 0x59d148c0, 0x7bf36ae2), 0x2721e114, 0xd0411b8c, 0x00000000, 0x5a827999, 0xcdd8e11b, 0x626414db);
  }

  lemma After6()
    ensures Sha1.Rounds(INIT, BLOCK, 6) == Sha1.Digest(0x3fc7ca40, 0xcfd499de, 0xf3763846, 0x284e43c2, 0x626414db)
  {
    hide Sha1.Rounds, Sha1.W;
    After4();
    Words0(0);
    Round(BLOCK, 4, Sha1.Digest(0xcdd8e11b, 0xa1390f08, 0x626414db, 0xc045bf0c, 0x59d148c0), 0xbb1c2379, 0x6064b40c, 0x00000000, 0x5a827999, 0xcfd499de, 0x284e43c2);
    Round(BLOCK, 5, Sha1.Digest(0xcfd499de, 0xcdd8e11b, 0x284e43c2, 0x626414db, 0xc045bf0c), 0xfa933bd9, 0x2a6c55c2, 0x00000000, 0x5a827999, 0x3fc7ca40, 0xf3763846);
  }

  lemma After8()
    ensures Sha1.Rounds(INIT, BLOCK, 8) == Sha1.Digest(0x9e8c07d4, 0x993e30c1, 0x0ff1f290, 0xb3f52677, 0xf3763846)
  {
    hide Sha1.Rounds, Sha1.W;
    After6();
    Words0(0);
    Round(BLOCK, 6, Sha1.Digest(0x3fc7ca40, 0xcfd499de, 0xf3763846, 0x284e43c2, 0x626414db), 0xf8f94807, 0xe35e5a46, 0x00000000, 0x5a827999, 0x993e30c1, 0xb3f52677);
    Round(BLOCK, 7, Sha1.Digest(0x993e30c1, 0x3fc7ca40, 0xb3f52677, 0xf3763846, 0x284e43c2), 0x27c61833, 0xf3f53246, 0x00000000, 0x5a827999, 0x9e8c07d4, 0x0ff1f290);
  }

  lemma After10()
    ensures Sha1.Rounds(INIT, BLOCK, 10) == Sha1.Digest(0x8351f929, 0x4b6ae328, 0x27a301f5, 0x664f8c30, 0x0ff1f290)
  {
    hide Sha1.Rounds, Sha1.W;
    After8();
    Words1(0);
    Round(BLOCK, 8, Sha1.Digest(0x9e8c07d4, 0x993e30c1, 0x0ff1f290, 0xb3f52677, 0xf3763846), 0xd180fa93, 0x2bf136b6, 0x00000000, 0x5a827999, 0x4b6ae328, 0x664f8c30);
    Round(BLOCK, 9, Sha1.Digest(0x4b6ae328, 0x9e8c07d4, 0x664f8c30, 0x0ff1f290, 0xb3f52677), 0x6d5c6509, 0x077df410, 0x00000000, 0x5a827999, 0x8351f929, 0x27a301f5);
  }

  lemma After12()
    ensures Sha1.Rounds(INIT, BLOCK, 12) == Sha1.Digest(0x63188fe4, 0xfbda9e89, 0x60d47e4a, 0x12dab8ca, 0x27a301f5)
  {
    hide Sha1.Rounds, Sha1.W;
    After10();
    Words1(0);
    Round(BLOCK, 10, Sha1.Digest(0x8351f929, 0x4b6ae328, 0x27a301f5, 0x664f8c30, 0x0ff1f290), 0x6a3f2530, 0x27270d30, 0x00000000, 0x5a827999, 0xfbda9e89, 0x12dab8ca);
    Round(BLOCK, 11, Sha1.Digest(0xfbda9e89, 0x8351f929, 0x12dab8ca, 0x27a301f5, 0x664f8c30), 0x7b53d13f, 0x26f2b8dc, 0x00000000, 0x5a827999, 0x63188fe4, 0x60d47e4a);
  }

  lemma After14()
    ensures Sha1.Rounds(INIT, BLOCK, 14) == Sha1.Digest(0x9128f695, 0x4607b664, 0x18c623f9, 0x7ef6a7a2, 0x60d47e4a)
  {
    hide Sha1.Rounds, Sha1.W;
    After12();
    Words1(0);
    Round(BLOCK, 12, Sha1.Digest(0x63188fe4, 0xfbda9e89, 0x60d47e4a, 0x12dab8ca, 0x27a301f5), 0x6311fc8c, 0x60d03e4a, 0x00000000, 0x5a827999, 0x4607b664, 0x7ef6a7a2);
    Round(BLOCK, 13, Sha1.Digest(0x4607b664, 0x63188fe4, 0x7ef6a7a2, 0x60d47e4a, 0x12dab8ca), 0xc0f6cc88, 0x62d4f7aa, 0x00000000, 0x5a827999, 0x9128f695, 0x18c623f9);
  }

  lemma After16()
    ensures Sha1.Rounds(INIT, BLOCK, 16) == Sha1.Digest(0x20bdd62f, 0x196bee77, 0x644a3da5, 0x1181ed99, 0x18c623f9)
  {
    hide Sha1.Rounds, Sha1.W;
    After14();
    Words1(0);
    Round(BLOCK, 14, Sha1.Digest(0x9128f695, 0x4607b664, 0x18c623f9, 0x7ef6a7a2, 0x60d47e4a), 0x251ed2b2, 0x38f623e2, 0x00000000, 0x5a827999, 0x196bee77, 0x1181ed99);
    Round(BLOCK, 15, Sha1.Digest(0x196bee77, 0x9128f695, 0x1181ed99, 0x18c623f9, 0x7ef6a7a2), 0x2d7dcee3, 0x19c6e5f9, 0x00000018, 0x5a827999, 0x20bdd62f, 0x644a3da5);
  }

  lemma After18()
    ensures Sha1.Rounds(INIT, BLOCK, 18) == Sha1.Digest(0x82aa6728, 0x4e925823, 0xc82f758b, 0xc65afb9d, 0x644a3da5)
  {
    hide Sha1.Rounds, Sha1.W;
    After16();
    Words2(0);
    Round(BLOCK, 16, Sha1.Digest(0x20bdd62f, 0x196bee77, 0x644a3da5, 0x1181ed99, 0x18c623f9), 0x17bac5e4, 0x00ca2dad, 0xc2c4c700, 0x5a827999, 0x4e925823, 0xc65afb9d);
    Round(BLOCK, 17, Sha1.Digest(0x4e925823, 0x20bdd62f, 0xc65afb9d, 0x644a3da5, 0x1181ed99), 0xd24b0469, 0x445afb8d, 0x00000000, 0x5a827999, 0x82aa6728, 0xc82f758b);
  }

  lemma After20()
    ensures Sha1.Rounds(INIT, BLOCK, 20) == Sha1.Digest(0xfd9e1d7d, 0xdc64901d, 0x20aa99ca, 0xd3a49608, 0xc82f758b)
  {
    hide Sha1.Rounds, Sha1.W;
    After18();
    Words2(0);
    Round(BLOCK, 18, Sha1.Digest(0x82aa6728, 0x4e925823, 0xc82f758b, 0xc65afb9d, 0x644a3da5), 0x554ce510, 0xc84af39f, 0x00000030, 0x5a827999, 0xdc64901d, 0xd3a49608);
    Round(BLOCK, 19, Sha1.Digest(0xdc64901d, 0x82aa6728, 0xd3a49608, 0xc82f758b, 0xc65afb9d), 0x8c9203bb, 0xcaa5168b, 0x85898e01, 0x5a827999, 0xfd9e1d7d, 0x20aa99ca);
  }

  lemma After22()
    ensures Sha1.Rounds(INIT, BLOCK, 22) == Sha1.Digest(0x33a23bfc, 0x1a37b0ca, 0x7f67875f, 0x77192407, 0x20aa99ca)
  {
    hide Sha1.Rounds, Sha1.W;
    After20();
    Words2(0);
    Round(BLOCK, 20, Sha1.Digest(0xfd9e1d7d, 0xdc64901d, 0x20aa99ca, 0xd3a49608, 0xc82f758b), 0xb3c3afbf, 0x2f6a9fdf, 0x00000000, 0x6ed9eba1, 0x1a37b0ca, 0x77192407);
    Round(BLOCK, 21, Sha1.Digest(0x1a37b0ca, 0xfd9e1d7d, 0x77192407, 0x20aa99ca, 0xd3a49608), 0x46f61943, 0xaa2da0b0, 0x00000060, 0x6ed9eba1, 0x33a23bfc, 0x7f67875f);
  }

  lemma After24()
    ensures Sha1.Rounds(INIT, BLOCK, 24) == Sha1.Digest(0xd541f12d, 0x21283486, 0x0ce88eff, 0x868dec32, 0x7f67875f)
  {
    hide Sha1.Rounds, Sha1.W;
    After22();
    Words2(0);
    Round(BLOCK, 22, Sha1.Digest(0x33a23bfc, 0x1a37b0ca, 0x7f67875f, 0x77192407, 0x20aa99ca), 0x74477f86, 0x12491392, 0x0b131c03, 0x6ed9eba1, 0x21283486, 0x868dec32);
    Round(BLOCK, 23, Sha1.Digest(0x21283486, 0x33a23bfc, 0x868dec32, 0x7f67875f, 0x77192407), 0x250690c4, 0xca485091, 0x00000030, 0x6ed9eba1, 0xd541f12d, 0x0ce88eff);
  }

  lemma After26()
    ensures Sha1.Rounds(INIT, BLOCK, 26) == Sha1.Digest(0x48413ba4, 0xc7567dc6, 0x75507c4b, 0x884a0d21, 0x0ce88eff)
  {
    hide Sha1.Rounds, Sha1.W;
    After24();
    Words3(0);
    Round(BLOCK, 24, Sha1.Digest(0xd541f12d, 0x21283486, 0x0ce88eff, 0x868dec32, 0x7f67875f), 0xa83e25ba, 0xab4d564b, 0x85898ec1, 0x6ed9eba1, 0xc7567dc6, 0x884a0d21);
    Round(BLOCK, 25, Sha1.Digest(0xc7567dc6, 0xd541f12d, 0x884a0d21, 0x0ce88eff, 0x868dec32), 0xeacfb8d8, 0x51e372f3, 0x16263806, 0x6ed9eba1, 0x48413ba4, 0x75507c4b);
  }

  lemma After28()
    ensures Sha1.Rounds(INIT, BLOCK, 28) == Sha1.Digest(0x4aa84d97, 0xbe35fbd5, 0x12104ee9, 0xb1d59f71, 0x75507c4b)
  {
    hide Sha1.Rounds, Sha1.W;
    After26();
    Words3(0);
    Round(BLOCK, 26, Sha1.Digest(0x48413ba4, 0xc7567dc6, 0x75507c4b, 0x884a0d21, 0x0ce88eff), 0x08277489, 0x3a4c0cac, 0x00000000, 0x6ed9eba1, 0xbe35fbd5, 0xb1d59f71);
    Round(BLOCK, 27, Sha1.Digest(0xbe35fbd5, 0x48413ba4, 0xb1d59f71, 0x75507c4b, 0x884a0d21), 0xc6bf7ab7, 0x8cc4d89e, 0x00000180, 0x6ed9eba1, 0x4aa84d97, 0x12104ee9);
  }

  lemma After30()
    ensures Sha1.Rounds(INIT, BLOCK, 30) == Sha1.Digest(0xc5fbaf5d, 0x8370b52e, 0xd2aa1365, 0x6f8d7ef5, 0x12104ee9)
  {
    hide Sha1.Rounds, Sha1.W;
    After28();
    Words3(0);
    Round(BLOCK, 28, Sha1.Digest(0x4aa84d97, 0xbe35fbd5, 0x12104ee9, 0xb1d59f71, 0x75507c4b), 0x5509b2e9, 0x1df02a4d, 0x2c4c700c, 0x6ed9eba1, 0x8370b52e, 0x6f8d7ef5);
    Round(BLOCK, 29, Sha1.Digest(0x8370b52e, 0x4aa84d97, 0x6f8d7ef5, 0x12104ee9, 0xb1d59f71), 0x6e16a5d0, 0x37357d8b, 0x000000f0, 0x6ed9eba1, 0xc5fbaf5d, 0xd2aa1365);
  }

  lemma After32()
    ensures Sha1.Rounds(INIT, BLOCK, 32) == Sha1.Digest(0x3b845d33, 0x1267b407, 0x717eebd7, 0xa0dc2d4b, 0xd2aa1365)
  {
    hide Sha1.Rounds, Sha1.W;
    After30();
    Words3(0);
    Round(BLOCK, 30, Sha1.Digest(0xc5fbaf5d, 0x8370b52e, 0xd2aa1365, 0x6f8d7ef5, 0x12104ee9), 0xbf75ebb8, 0x3e57d8be, 0x93afb507, 0x6ed9eba1, 0x1267b407, 0xa0dc2d4b);
    Round(BLOCK, 31, Sha1.Digest(0x1267b407, 0xc5fbaf5d, 0xa0dc2d4b, 0xd2aa1365, 0x6f8d7ef5), 0x4cf680e2, 0xb78d9173, 0x5898e048, 0x6ed9eba1, 0x3b845d33, 0x717eebd7);
  }

  lemma After34()
    ensures Sha1.Rounds(INIT, BLOCK, 34) == Sha1.Digest(0x2c0ebc11, 0x046faa0a, 0xcee1174c, 0xc499ed01, 0x717eebd7)
  {
    hide Sha1.Rounds, Sha1.W;
    After32();
    Words4(0);
    Round(BLOCK, 32, Sha1.Digest(0x3b845d33, 0x1267b407, 0x717eebd7, 0xa0dc2d4b, 0xd2aa1365), 0x708ba667, 0xc3c5729b, 0x8e9a9202, 0x6ed9eba1, 0x046faa0a, 0xc499ed01);
    Round(BLOCK, 33, Sha1.Digest(0x046faa0a, 0x3b845d33, 0xc499ed01, 0x717eebd7, 0xa0dc2d4b), 0x8df54140, 0x8e635be5, 0x00000600, 0x6ed9eba1, 0x2c0ebc11, 0xcee1174c);
  }

  lemma After36()
    ensures Sha1.Rounds(INIT, BLOCK, 36) == Sha1.Digest(0xdcbbb0cb, 0x21796ad4, 0x4b03af04, 0x811bea82, 0xcee1174c)
  {
    hide Sha1.Rounds, Sha1.W;
    After34();
    Words4(0);
    Round(BLOCK, 34, Sha1.Digest(0x2c0ebc11, 0x046faa0a, 0xcee1174c, 0xc499ed01, 0x717eebd7), 0x81d78225, 0x0e175047, 0xb131c0f0, 0x6ed9eba1, 0x21796ad4, 0x811bea82);
    Round(BLOCK, 35, Sha1.Digest(0x21796ad4, 0x2c0ebc11, 0x811bea82, 0xcee1174c, 0xc499ed01), 0x2f2d5a84, 0x63f441df, 0x16263bc6, 0x6ed9eba1, 0xdcbbb0cb, 0x4b03af04);
  }

  lemma After38()
    ensures Sha1.Rounds(INIT, BLOCK, 38) == Sha1.Digest(0xdc63973f, 0x0f511fd8, 0xf72eec32, 0x085e5ab5, 0x4b03af04)
  {
    hide Sha1.Rounds, Sha1.W;
    After36();
    Words4(0);
    Round(BLOCK, 36, Sha1.Digest(0xdcbbb0cb, 0x21796ad4, 0x4b03af04, 0x811bea82, 0xcee1174c), 0x9776197b, 0xeb612f52, 0x4ebed41e, 0x6ed9eba1, 0x0f511fd8, 0x085e5ab5);
    Round(BLOCK, 37, Sha1.Digest(0x0f511fd8, 0xdcbbb0cb, 0x085e5ab5, 0x4b03af04, 0x811bea82), 0xea23fb01, 0x9fe6457a, 0x626380a1, 0x6ed9eba1, 0xdc63973f, 0xf72eec32);
  }

  lemma After40()
    ensures Sha1.Rounds(INIT, BLOCK, 40) == Sha1.Digest(0x32de1cba, 0x4c986405, 0xf718e5cf, 0x03d447f6, 0xf72eec32)
  {
    hide Sha1.Rounds, Sha1.W;
    After38();
    Words4(0);
    Round(BLOCK, 38, Sha1.Digest(0xdc63973f, 0x0f511fd8, 0xf72eec32, 0x085e5ab5, 0x4b03af04), 0x8c72e7fb, 0xf021a95f, 0x16263806, 0x6ed9eba1, 0x4c986405, 0x03d447f6);
    Round(BLOCK, 39, Sha1.Digest(0x4c986405, 0xdc63973f, 0x03d447f6, 0xf72eec32, 0x085e5ab5), 0x930c80a9, 0x28993cfb, 0x000018c0, 0x6ed9eba1, 0x32de1cba, 0xf718e5cf);
  }

  lemma After42()
    ensures Sha1.Rounds(INIT, BLOCK, 42) == Sha1.Digest(0x970a0d5c, 0xfc87dedf, 0x8cb7872e, 0x53261901, 0xf718e5cf)
  {
    hide Sha1.Rounds, Sha1.W;
    After40();
    Words5(0);
    Round(BLOCK, 40, Sha1.Digest(0x32de1cba, 0x4c986405, 0xf718e5cf, 0x03d447f6, 0xf72eec32), 0x5bc39746, 0x479865c7, 0xd2e138c4, 0x8f1bbcdc, 0xfc87dedf, 0x53261901);
    Round(BLOCK, 41, Sha1.Digest(0xfc87dedf, 0x32de1cba, 0x53261901, 0xf718e5cf, 0x03d447f6), 0x90fbdbff, 0x731e1d8b, 0x00000f00, 0x8f1bbcdc, 0x970a0d5c, 0x8cb7872e);
  }

  lemma After44()
    ensures Sha1.Rounds(INIT, BLOCK, 44) == Sha1.Digest(0xee1b1aaf, 0x7f193dc5, 0x25c28357, 0xff21f7b7, 0x8cb7872e)
  {
    hide Sha1.Rounds, Sha1.W;
    After42();
    Words5(0);
    Round(BLOCK, 42, Sha1.Digest(0x970a0d5c, 0xfc87dedf, 0x8cb7872e, 0x53261901, 0xf718e5cf), 0xe141ab92, 0xdca79f0f, 0x3afb5079, 0x8f1bbcdc, 0x7f193dc5, 0xff21f7b7);
    Round(BLOCK, 43, Sha1.Digest(0x7f193dc5, 0x970a0d5c, 0xff21f7b7, 0x8cb7872e, 0x53261901), 0xe327b8af, 0x9f23873e, 0x898e04e5, 0x8f1bbcdc, 0xee1b1aaf, 0x25c28357);
  }

  lemma After46()
    ensures Sha1.Rounds(INIT, BLOCK, 46) == Sha1.Digest(0x1c51e1f2, 0x40f28e09, 0xfb86c6ab, 0x5fc64f71, 0x25c28357)
  {
    hide Sha1.Rounds, Sha1.W;
    After44();
    Words5(0);
    Round(BLOCK, 44, Sha1.Digest(0xee1b1aaf, 0x7f193dc5, 0x25c28357, 0xff21f7b7, 0x8cb7872e), 0xc36355fd, 0x7f01b7d7, 0xe2ba3c2b, 0x8f1bbcdc, 0x40f28e09, 0x5fc64f71);
    Round(BLOCK, 45, Sha1.Digest(0x40f28e09, 0xee1b1aaf, 0x5fc64f71, 0x25c28357, 0xff21f7b7), 0x1e51c128, 0x6fc20b77, 0x000060c0, 0x8f1bbcdc, 0x1c51e1f2, 0xfb86c6ab);
  }

  lemma After48()
    ensures Sha1.Rounds(INIT, BLOCK, 48) == Sha1.Digest(0xbead02ca, 0xa01b846c, 0x8714787c, 0x503ca382, 0xfb86c6ab)
  {
    hide Sha1.Rounds, Sha1.W;
    After46();
    Words5(0);
    Round(BLOCK, 46, Sha1.Digest(0x1c51e1f2, 0x40f28e09, 0xfb86c6ab, 0x5fc64f71, 0x25c28357), 0x8a3c3e43, 0x5bc6ce29, 0x053a37cd, 0x8f1bbcdc, 0xa01b846c, 0x503ca382);
    Round(BLOCK, 47, Sha1.Digest(0xa01b846c, 0x1c51e1f2, 0x503ca382, 0xfb86c6ab, 0x5fc64f71), 0x03708d94, 0x5814e3a2, 0x74458547, 0x8f1bbcdc, 0xbead02ca, 0x8714787c);
  }

  lemma After50()
    ensures Sha1.Rounds(INIT, BLOCK, 50) == Sha1.Digest(0x120731c5, 0xbaf39337, 0xafab40b2, 0x2806e11b, 0x8714787c)
  {
    hide Sha1.Rounds, Sha1.W;
    After48();
    Words6(0);
    Round(BLOCK, 48, Sha1.Digest(0xbead02ca, 0xa01b846c, 0x8714787c, 0x503ca382, 0xfb86c6ab), 0xd5a05957, 0x801ca06c, 0xda9415ed, 0x8f1bbcdc, 0xbaf39337, 0x2806e11b);
    Round(BLOCK, 49, Sha1.Digest(0xbaf39337, 0xbead02ca, 0x2806e11b, 0x8714787c, 0x503ca382), 0x5e7266f7, 0xae04605a, 0x26380a16, 0x8f1bbcdc, 0x120731c5, 0xafab40b2);
  }

  lemma After52()
    ensures Sha1.Rounds(INIT, BLOCK, 52) == Sha1.Digest(0x3847ad66, 0x641db2ce, 0x4481cc71, 0xeebce4cd, 0xafab40b2)
  {
    hide Sha1.Rounds, Sha1.W;
    After50();
    Words6(0);
    Round(BLOCK, 50, Sha1.Digest(0x120731c5, 0xbaf39337, 0xafab40b2, 0x2806e11b, 0x8714787c), 0x40e638a2, 0xaaa3c133, 0x626383a1, 0x8f1bbcdc, 0x641db2ce, 0xeebce4cd);
    Round(BLOCK, 51, Sha1.Digest(0x641db2ce, 0x120731c5, 0xeebce4cd, 0xafab40b2, 0x2806e11b), 0x83b659cc, 0xaeaf60c5, 0x4ebf54de, 0x8f1bbcdc, 0x3847ad66, 0x4481cc71);
  }

  lemma After54()
    ensures Sha1.Rounds(INIT, BLOCK, 54) == Sha1.Digest(0x27e9f1d8, 0xe490436d, 0x8e11eb59, 0x99076cb3, 0x4481cc71)
  {
    hide Sha1.Rounds, Sha1.W;
    After52();
    Words6(0);
    Round(BLOCK, 52, Sha1.Digest(0x3847ad66, 0x641db2ce, 0x4481cc71, 0xeebce4cd, 0xafab40b2), 0x08f5acc7, 0x649de4cd, 0x3835b44b, 0x8f1bbcdc, 0xe490436d, 0x99076cb3);
    Round(BLOCK, 53, Sha1.Digest(0xe490436d, 0x3847ad66, 0x99076cb3, 0x4481cc71, 0xeebce4cd), 0x92086dbc, 0x1807ec73, 0x0000f600, 0x8f1bbcdc, 0x27e9f1d8, 0x8e11eb59);
  }

  lemma After56()
    ensures Sha1.Rounds(INIT, BLOCK, 56) == Sha1.Digest(0x5e6456af, 0x7b71f76d, 0x09fa7c76, 0x792410db, 0x8e11eb59)
  {
    hide Sha1.Rounds, Sha1.W;
    After54();
    Words6(0);
    Round(BLOCK, 54, Sha1.Digest(0x27e9f1d8, 0xe490436d, 0x8e11eb59, 0x99076cb3, 0x4481cc71), 0xfd3e3b04, 0x8c116b79, 0x1e84c7a3, 0x8f1bbcdc, 0x7b71f76d, 0x792410db);
    Round(BLOCK, 55, Sha1.Digest(0x7b71f76d, 0x27e9f1d8, 0x792410db, 0x8e11eb59, 0x99076cb3), 0x6e3eedaf, 0x2f21f1d9, 0x98e04d98, 0x8f1bbcdc, 0x5e6456af, 0x09fa7c76);
  }

  lemma After58()
    ensures Sha1.Rounds(INIT, BLOCK, 58) == Sha1.Digest(0xd262ff50, 0xc846093f, 0xd79915ab, 0x5edc7ddb, 0x09fa7c76)
  {
    hide Sha1.Rounds, Sha1.W;
    After56();
    Words7(0);
    Round(BLOCK, 56, Sha1.Digest(0x5e6456af, 0x7b71f76d, 0x09fa7c76, 0x792410db, 0x8e11eb59), 0xcc8ad5eb, 0x7970747f, 0x651d16a0, 0x8f1bbcdc, 0xc846093f, 0x5edc7ddb);
    Round(BLOCK, 57, Sha1.Digest(0xc846093f, 0x5e6456af, 0x5edc7ddb, 0x09fa7c76, 0x792410db), 0x08c127f9, 0x5efc7cff, 0x62658ca1, 0x8f1bbcdc, 0xd262ff50, 0xd79915ab);
  }

  lemma After60()
    ensures Sha1.Rounds(INIT, BLOCK, 60) == Sha1.Digest(0x3f52de5a, 0x09d785fd, 0x3498bfd4, 0xf211824f, 0xd79915ab)
  {
    hide Sha1.Rounds, Sha1.W;
    After58();
    Words7(0);
    Round(BLOCK, 58, Sha1.Digest(0xd262ff50, 0xc846093f, 0xd79915ab, 0x5edc7ddb, 0x09fa7c76), 0x4c5fea1a, 0xdedc1dbb, 0x458544d6, 0x8f1bbcdc, 0x09d785fd, 0xf211824f);
    Round(BLOCK, 59, Sha1.Digest(0x09d785fd, 0xd262ff50, 0xf211824f, 0xd79915ab, 0x5edc7ddb), 0x3af0bfa1, 0xd211974b, 0x44584cb7, 0x8f1bbcdc, 0x3f52de5a, 0x3498bfd4);
  }

  lemma After62()
    ensures Sha1.Rounds(INIT, BLOCK, 62) == Sha1.Digest(0x548c9cb2, 0xd756c147, 0x8fd4b796, 0x4275e17f, 0x3498bfd4)
  {
    hide Sha1.Rounds, Sha1.W;
    After60();
    Words7(0);
    Round(BLOCK, 60, Sha1.Digest(0x3f52de5a, 0x09d785fd, 0x3498bfd4, 0xf211824f, 0xd79915ab), 0xea5bcb47, 0xcf5eb866, 0x7ba06619, 0xca62c1d6, 0xd756c147, 0x4275e17f);
    Round(BLOCK, 61, Sha1.Digest(0xd756c147, 0x3f52de5a, 0x4275e17f, 0x3498bfd4, 0xf211824f), 0xead828fa, 0x49bf80f1, 0x6380aea2, 0xca62c1d6, 0x548c9cb2, 0x8fd4b796);
  }

  lemma After64()
    ensures Sha1.Rounds(INIT, BLOCK, 64) == Sha1.Digest(0x6b61c9e1, 0xb66c020b, 0x9523272c, 0xf5d5b051, 0x8fd4b796)
  {
    hide Sha1.Rounds, Sha1.W;
    After62();
    Words7(0);
    Round(BLOCK, 62, Sha1.Digest(0x548c9cb2, 0xd756c147, 0x8fd4b796, 0x4275e17f, 0x3498bfd4), 0x9193964a, 0x1af797ae, 0x0ae55269, 0xca62c1d6, 0xb66c020b, 0xf5d5b051);
    Round(BLOCK, 63, Sha1.Digest(0xb66c020b, 0x548c9cb2, 0xf5d5b051, 0x8fd4b796, 0x4275e17f), 0xcd804176, 0x2e8d9b75, 0x627b49a1, 0xca62c1d6, 0x6b61c9e1, 0x9523272c);
  }

  lemma After66()
    ensures Sha1.Rounds(INIT, BLOCK, 66) == Sha1.Digest(0x101655f9, 0x19dfa7ac, 0x5ad87278, 0xed9b0082, 0x9523272c)
  {
    hide Sha1.Rounds, Sha1.W;
    After64();
    Words8(0);
    Round(BLOCK, 64, Sha1.Digest(0x6b61c9e1, 0xb66c020b, 0x9523272c, 0xf5d5b051, 0x8fd4b796), 0x6c393c2d, 0xd69a9576, 0x7cd45c9d, 0xca62c1d6, 0x19dfa7ac, 0xed9b0082);
    Round(BLOCK, 65, Sha1.Digest(0x19dfa7ac, 0x6b61c9e1, 0xed9b0082, 0x9523272c, 0xf5d5b051), 0x3bf4f583, 0x13d9ee4f, 0x000f0000, 0xca62c1d6, 0x101655f9, 0x5ad87278);
  }

  lemma After68()
    ensures Sha1.Rounds(INIT, BLOCK, 68) == Sha1.Digest(0x78dd4d2b, 0x0c3df2b4, 0x4405957e, 0x0677e9eb, 0x5ad87278)
  {
    hide Sha1.Rounds, Sha1.W;
    After66();
    Words8(0);
    Round(BLOCK, 66, Sha1.Digest(0x101655f9, 0x19dfa7ac, 0x5ad87278, 0xed9b0082, 0x9523272c), 0x02cabf22, 0xae9cd556, 0xfb50753a, 0xca62c1d6, 0x0c3df2b4, 0x0677e9eb);
    Round(BLOCK, 67, Sha1.Digest(0x0c3df2b4, 0x101655f9, 0x0677e9eb, 0x5ad87278, 0xed9b0082), 0x87be5681, 0x4cb9ce6a, 0xec6765e8, 0xca62c1d6, 0x78dd4d2b, 0x4405957e);
  }

  lemma After70()
    ensures Sha1.Rounds(INIT, BLOCK, 70) == Sha1.Digest(0x3f2588c2, 0x497093c0, 0xde37534a, 0x030f7cad, 0x4405957e)
  {
    hide Sha1.Rounds, Sha1.W;
    After68();
    Words8(0);
    Round(BLOCK, 68, Sha1.Digest(0x78dd4d2b, 0x0c3df2b4, 0x4405957e, 0x0677e9eb, 0x5ad87278), 0x1ba9a56f, 0x4e4f8e21, 0xba3c2be2, 0xca62c1d6, 0x497093c0, 0x030f7cad);
    Round(BLOCK, 69, Sha1.Digest(0x497093c0, 0x78dd4d2b, 0x030f7cad, 0x4405957e, 0x0677e9eb), 0x2e127809, 0x3fd7a4f8, 0x0060c000, 0xca62c1d6, 0x3f2588c2, 0xde37534a);
  }

  lemma After72()
    ensures Sha1.Rounds(INIT, BLOCK, 72) == Sha1.Digest(0x39859de7, 0xc199f8c7, 0x8fc96230, 0x125c24f0, 0xde37534a)
  {
    hide Sha1.Rounds, Sha1.W;
    After70();
    Words8(0);
    Round(BLOCK, 70, Sha1.Digest(0x3f2588c2, 0x497093c0, 0xde37534a, 0x030f7cad, 0x4405957e), 0xe4b11847, 0x9448bc27, 0x3a37cd05, 0xca62c1d6, 0xc199f8c7, 0x125c24f0);
    Round(BLOCK, 71, Sha1.Digest(0xc199f8c7, 0x3f2588c2, 0x125c24f0, 0xde37534a, 0x030f7cad), 0x333f18f8, 0xf34eff78, 0x458546f4, 0xca62c1d6, 0x39859de7, 0x8fc96230);
  }

  lemma After74()
    ensures Sha1.Rounds(INIT, BLOCK, 74) == Sha1.Digest(0x11793f6f, 0xedb42de4, 0xce616779, 0xf0667e31, 0x8fc96230)
  {
    hide Sha1.Rounds, Sha1.W;
    After72();
    Words9(0);
    Round(BLOCK, 72, Sha1.Digest(0x39859de7, 0xc199f8c7, 0x8fc96230, 0x125c24f0, 0xde37534a), 0x30b3bce7, 0x5c0cbe07, 0xb8599dd6, 0xca62c1d6, 0xedb42de4, 0xf0667e31);
    Round(BLOCK, 73, Sha1.Digest(0xedb42de4, 0x39859de7, 0xf0667e31, 0x8fc96230, 0x125c24f0), 0xb685bc9d, 0x462a81e6, 0x380a1a26, 0xca62c1d6, 0x11793f6f, 0xce616779);
  }

  lemma After76()
    ensures Sha1.Rounds(INIT, BLOCK, 76) == Sha1.Digest(0x63f7dab7, 0x5ee76897, 0xc45e4fdb, 0x3b6d0b79, 0xce616779)
  {
    hide Sha1.Rounds, Sha1.W;
    After74();
    Words9(0);
    Round(BLOCK, 74, Sha1.Digest(0x11793f6f, 0xedb42de4, 0xce616779, 0xf0667e31, 0x8fc96230), 0x2f27ede2, 0xd3b334ac, 0x01e02203, 0xca62c1d6, 0x5ee76897, 0x3b6d0b79);
    Round(BLOCK, 75, Sha1.Digest(0x5ee76897, 0x11793f6f, 0x3b6d0b79, 0xce616779, 0xf0667e31), 0xdced12eb, 0xe475536f, 0xe7cc3456, 0xca62c1d6, 0x63f7dab7, 0xc45e4fdb);
  }

  lemma After78()
    ensures Sha1.Rounds(INIT, BLOCK, 78) == Sha1.Digest(0x860d21cc, 0xa079b7d9, 0xd8fdf6ad, 0xd7b9da25, 0xc45e4fdb)
  {
    hide Sha1.Rounds, Sha1.W;
    After76();
    Words9(0);
    Round(BLOCK, 76, Sha1.Digest(0x63f7dab7, 0x5ee76897, 0xc45e4fdb, 0x3b6d0b79, 0xce616779), 0x7efb56ec, 0xa1d42c35, 0xe6e60b69, 0xca62c1d6, 0xa079b7d9, 0xd7b9da25);
    Round(BLOCK, 77, Sha1.Digest(0xa079b7d9, 0x63f7dab7, 0xd7b9da25, 0xc45e4fdb, 0x3b6d0b79), 0x0f36fb34, 0x70104f49, 0x00f60a00, 0xca62c1d6, 0x860d21cc, 0xd8fdf6ad);
  }

  lemma After80()
    ensures Sha1.Rounds(INIT, BLOCK, 80) == Sha1.Digest(0x42541b35, 0x5738d5e1, 0x21834873, 0x681e6df6, 0xd8fdf6ad)
  {
    hide Sha1.Rounds, Sha1.W;
    After78();
    Words9(0);
    Round(BLOCK, 78, Sha1.Digest(0x860d21cc, 0xa079b7d9, 0xd8fdf6ad, 0xd7b9da25, 0xc45e4fdb), 0xc1a43990, 0xaf3d9b51, 0x5795ef4f, 0xca62c1d6, 0x5738d5e1, 0x681e6df6);
    Round(BLOCK, 79, Sha1.Digest(0x5738d5e1, 0x860d21cc, 0x681e6df6, 0xd8fdf6ad, 0xd7b9da25), 0xe71abc2a, 0x36eeba97, 0x822e0879, 0xca62c1d6, 0x42541b35, 0x21834873);
  }

  lemma Ended()
    ensures Sha1.Plus(INIT, Sha1.Digest(0x42541b35, 0x5738d5e1, 0x21834873, 0x681e6df6, 0xd8fdf6ad)) == Sha1.Digest(0xa9993e36, 0x4706816a, 0xba3e2571, 0x7850c26c, 0x9cd0d89d)
  {
  }

  lemma Compressed()
    ensures Sha1.Compress(INIT, BLOCK) == Sha1.Digest(0xa9993e36, 0x4706816a, 0xba3e2571, 0x7850c26c, 0x9cd0d89d)
  {
    hide Sha1.Rounds, Sha1.Plus;
    After80();
    Ended();
  }

  function OneBlockOf(): (block: seq<byte>)
    ensures |block| == 64
  {
    [0x61, 0x62, 0x63] + [0x80] + Zeros(52) + [0, 0, 0, 0, 0, 0, 0, 24]
  }

  lemma WordBytes()
    ensures BeBytes(24 as word) == [0, 0, 0, 24] && BeBytes(0 as word) == [0, 0, 0, 0]
  {
  }

  lemma BitsOfAbc()
    ensures LengthLow(3) == 24 && LengthHigh(3) == 0
  {
  }

  lemma LengthOfAbc()
    ensures Length(3) == [0, 0, 0, 0, 0, 0, 0, 24]
  {
    WordBytes();
    BitsOfAbc();
    hide BeBytes, LengthLow, LengthHigh;
  }

  lemma PaddedAbc()
    ensures Padded(ABC, Length(3)) == OneBlockOf()
  {
    LengthOfAbc();
    hide Length;
  }

  lemma QuadOf(i: nat)
    requires 0 < i < 15
    ensures OneBlockOf()[4 * i..4 * i + 4] == [0, 0, 0, 0]
  {
    var block := OneBlockOf();
    assert forall j :: 4 <= j < 63 ==> block[j] == 0;
    var q := block[4 * i..4 * i + 4];
    assert q[0] == block[4 * i] && q[1] == block[4 * i + 1] && q[2] == block[4 * i + 2] && q[3] == block[4 * i + 3];
    assert q == [q[0], q[1], q[2], q[3]];
  }

  lemma Highs()
    ensures Be(0x61, 0x62, 0x63, 0x80) == 0x61626380 && Be(0, 0, 0, 24) == 24 && Be(0, 0, 0, 0) == 0
  {
  }

  lemma BlockWords()
    ensures Loads(true, OneBlockOf()) == BLOCK
  {
    var block := OneBlockOf();
    assert block[0..4] == [0x61, 0x62, 0x63, 0x80] && block[60..64] == [0, 0, 0, 24];
    hide OneBlockOf, Be;
    forall i | 0 < i < 15 ensures block[4 * i..4 * i + 4] == [0, 0, 0, 0] {
      QuadOf(i);
    }
    Highs();
  }

  lemma OutputBytes()
    ensures Output(Sha1.Digest(0xa9993e36, 0x4706816a, 0xba3e2571, 0x7850c26c, 0x9cd0d89d)) == [0xa9, 0x99, 0x3e, 0x36, 0x47, 0x06, 0x81, 0x6a, 0xba, 0x3e, 0x25, 0x71, 0x78, 0x50, 0xc2, 0x6c, 0x9c, 0xd0, 0xd8, 0x9d]
  {
  }

  /** The digest as published. */
  lemma KnownAnswer()
    ensures Hash([0x61, 0x62, 0x63]) == [0xa9, 0x99, 0x3e, 0x36, 0x47, 0x06, 0x81, 0x6a, 0xba, 0x3e, 0x25, 0x71, 0x78, 0x50, 0xc2, 0x6c, 0x9c, 0xd0, 0xd8, 0x9d]
  {
    hide Sha1.Compress, Loads, Padded, Output, OneBlockOf, Length, Fold;
    PaddedAbc();
    OneBlock(BlockTransform, INIT, OneBlockOf());
    BlockWords();
    Compressed();
    OutputBytes();
  }
}
