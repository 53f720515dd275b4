/** A published digest (section A.5 of RFC 1321): MD5 of "abc" is 900150983cd24fb0d6963f7d28e17f72. */
module Md5KnownAnswer {
  import opened Bytes
  import opened Words
  import opened Md5
  import opened Md5Stream
  import opened Streaming

  const ABC: seq<byte> := [0x61, 0x62, 0x63]

  /** The words of its one block. */
  const BLOCK: seq<word> := [0x80636261, 0, 0, 0, 0, 0, 0, 0, 0, 0, 0, 0, 0, 0, 24, 0]

  /** One step in numbers: what the mixing function, the sum and the rotation give, and the new word. */
  lemma Made(block: seq<word>, t: nat, s: Buf, f: word, x: word, k: word, sum: word, turned: word, made: word)
    requires |block| == 16 && Steps(INIT, block, t) == s && block[Index(t)] == x && T(t) == k
    requires Mix(t, s.b, s.c, s.d) == f && Sum4(s.a, f, x, k) == sum
    requires Rotate(sum, Shift(t)) == turned && Add(s.b, turned) == made
    ensures Steps(INIT, block, t + 1) == Buf(s.d, made, s.b, s.c)
  {
  }

  lemma Begin()
    ensures Steps(INIT, BLOCK, 0) == INIT
  {
  }

  lemma After2()
    ensures Steps(INIT, BLOCK, 2) == Buf(0x98badcfe, 0x344a8432, 0xd6d117b4, 0xefcdab89)
  {
    hide Steps;
    Begin();
    Made(BLOCK, 0, Buf(0x67452301, 0xefcdab89, 0x98badcfe, 0x10325476), 0x98badcfe, 0x80636261, 0xd76aa478, 0x57ce06d8, 0xe7036c2b, 0xd6d117b4);
    Made(BLOCK, 1, Buf(0x10325476, 0xd6d117b4, 0xefcdab89, 0x98badcfe), 0xceebcbca, 0x0, 0xe8c7b756, 0xc7e5d796, 0x5d796c7e, 0x344a8432);
  }

  lemma After4()
    ensures Steps(INIT, BLOCK, 4) == Buf(0xd6d117b4, 0x7ad956f2, 0x2f6fbd72, 0x344a8432)
  {
    hide Steps;
    After2();
    Made(BLOCK, 2, Buf(0x98badcfe, 0x344a8432, 0xd6d117b4, 0xefcdab89), 0xdfc52fb9, 0x0, 0x242070db, 0x9ca07d92, 0xfb253940, 0x2f6fbd72);
    Made(BLOCK, 3, Buf(0xefcdab89, 0x2f6fbd72, 0x344a8432, 0xd6d117b4), 0xf4da86b6, 0x0, 0xc1bdceee, 0xa666012d, 0x4b699980, 0x7ad956f2);
  }

  lemma After6()
    ensures Steps(INIT, BLOCK, 6) == Buf(0x2f6fbd72, 0x8bac3051, 0xc73741ef, 0x7ad956f2)
  {
    hide Steps;
    After4();
    Made(BLOCK, 4, Buf(0xd6d117b4, 0x7ad956f2, 0x2f6fbd72, 0x344a8432), 0x2e4b9472, 0x0, 0xf57c0faf, 0xfa98bbd5, 0x4c5deafd, 0xc73741ef);
    Made(BLOCK, 5, Buf(0x344a8432, 0xc73741ef, 0x7ad956f2, 0x2f6fbd72), 0x6a59fcf2, 0x0, 0x4787c62a, 0xe62c474e, 0xc474ee62, 0x8bac3051);
  }

  lemma After8()
    ensures Steps(INIT, BLOCK, 8) == Buf(0xc73741ef, 0x928d99f6, 0x207dc67b, 0x8bac3051)
  {
    hide Steps;
    After6();
    Made(BLOCK, 6, Buf(0x2f6fbd72, 0x8bac3051, 0xc73741ef, 0x7ad956f2), 0xf37546e3, 0x0, 0xa8304613, 0xcb154a68, 0x94d1962a, 0x207dc67b);
    Made(BLOCK, 7, Buf(0x7ad956f2, 0x207dc67b, 0x8bac3051, 0xc73741ef), 0xc72e01d5, 0x0, 0xfd469501, 0x3f4dedc8, 0x720fd37b, 0x928d99f6);
  }

  lemma After10()
    ensures Steps(INIT, BLOCK, 10) == Buf(0x207dc67b, 0x74e2f284, 0x854b3712, 0x928d99f6)
  {
    hide Steps;
    After8();
    Made(BLOCK, 8, Buf(0xc73741ef, 0x928d99f6, 0x207dc67b, 0x8bac3051), 0x092da073, 0x0, 0x698098d8, 0x39e57b3a, 0xf2bd9d1c, 0x854b3712);
    Made(BLOCK, 9, Buf(0x8bac3051, 0x854b3712, 0x928d99f6, 0x207dc67b), 0xa03dd17b, 0x0, 0x8b44f7af, 0xb72ef97b, 0xef97bb72, 0x74e2f284);
  }

  lemma After12()
    ensures Steps(INIT, BLOCK, 12) == Buf(0x854b3712, 0x5ed49596, 0x3020401c, 0x74e2f284)
  {
    hide Steps;
    After10();
    Made(BLOCK, 10, Buf(0x207dc67b, 0x74e2f284, 0x854b3712, 0x928d99f6), 0x864f3b72, 0x0, 0xffff5bb1, 0xa6cc5d9e, 0xbb3d4d98, 0x3020401c);
    Made(BLOCK, 11, Buf(0x928d99f6, 0x3020401c, 0x74e2f284, 0x854b3712), 0xb56b7706, 0x0, 0x895cd7be, 0xd155e8ba, 0x2eb4557a, 0x5ed49596);
  }

  lemma After14()
    ensures Steps(INIT, BLOCK, 14) == Buf(0x3020401c, 0xa1051895, 0xdda9b9a6, 0x5ed49596)
  {
    hide Steps;
    After12();
    Made(BLOCK, 12, Buf(0x854b3712, 0x5ed49596, 0x3020401c, 0x74e2f284), 0x30226214, 0x0, 0x6b901122, 0x20fdaa48, 0x7ed52410, 0xdda9b9a6);
    Made(BLOCK, 13, Buf(0x74e2f284, 0xdda9b9a6, 0x5ed49596, 0x3020401c), 0x7c80d19e, 0x0, 0xfd987193, 0xeefc35b5, 0xc35b5eef, 0xa1051895);
  }

  lemma After16()
    ensures Steps(INIT, BLOCK, 16) == Buf(0xdda9b9a6, 0x72aff2e0, 0xe396856b, 0xa1051895)
  {
    hide Steps;
    After14();
    Made(BLOCK, 14, Buf(0x3020401c, 0xa1051895, 0xdda9b9a6, 0x5ed49596), 0xdfd19d86, 0x18, 0xa679438e, 0xb66b2148, 0x42916cd6, 0xe396856b);
    Made(BLOCK, 15, Buf(0x5ed49596, 0xe396856b, 0xa1051895, 0xdda9b9a6), 0xbd2d3885, 0x0, 0x49b40821, 0x65b5d63c, 0x8f196d75, 0x72aff2e0);
  }

  lemma After18()
    ensures Steps(INIT, BLOCK, 18) == Buf(0xe396856b, 0x4a1d804e, 0x3e9e9126, 0x72aff2e0)
  {
    hide Steps;
    After16();
    Made(BLOCK, 16, Buf(0xdda9b9a6, 0x72aff2e0, 0xe396856b, 0xa1051895), 0x629795ea, 0x0, 0xf61e2562, 0x365f74f2, 0xcbee9e46, 0x3e9e9126);
    Made(BLOCK, 17, Buf(0xa1051895, 0x3e9e9126, 0x72aff2e0, 0xe396856b), 0x32bff3a2, 0x0, 0xc040b340, 0x9405bf77, 0x0b7eef28, 0x4a1d804e);
  }

  lemma After19()
    ensures Steps(INIT, BLOCK, 19) == Buf(0x72aff2e0, 0xe25e1652, 0x4a1d804e, 0x3e9e9126)
  {
    hide Steps;
    After18();
    Made(BLOCK, 18, Buf(0xe396856b, 0x4a1d804e, 0x3e9e9126, 0x72aff2e0), 0x4e1d8146, 0x0, 0x265e5a51, 0x58126102, 0x98409604, 0xe25e1652);
  }

  lemma After20()
    ensures Steps(INIT, BLOCK, 20) == Buf(0x3e9e9126, 0xb5b204e4, 0xe25e1652, 0x4a1d804e)
  {
    hide Steps;
    After19();
    Made(BLOCK, 19, Buf(0x72aff2e0, 0xe25e1652, 0x4a1d804e, 0x3e9e9126), 0x621f104a, 0x80636261, 0xe9b6c7aa, 0x3ee92d35, 0xd353ee92, 0xb5b204e4);
  }

  lemma After22()
    ensures Steps(INIT, BLOCK, 22) == Buf(0xe25e1652, 0x6d002f1e, 0x59a8ffda, 0xb5b204e4)
  {
    hide Steps;
    After20();
    Made(BLOCK, 20, Buf(0x3e9e9126, 0xb5b204e4, 0xe25e1652, 0x4a1d804e), 0xa0521654, 0x0, 0xd62f105d, 0xb51fb7d7, 0xa3f6faf6, 0x59a8ffda);
    Made(BLOCK, 21, Buf(0x4a1d804e, 0x59a8ffda, 0xb5b204e4, 0xe25e1652), 0x55a816f6, 0x0, 0x02441453, 0xa209ab97, 0x13572f44, 0x6d002f1e);
  }

  lemma After24()
    ensures Steps(INIT, BLOCK, 24) == Buf(0x59a8ffda, 0x47092c07, 0xabfc7920, 0x6d002f1e)
  {
    hide Steps;
    After22();
    Made(BLOCK, 22, Buf(0xe25e1652, 0x6d002f1e, 0x59a8ffda, 0xb5b204e4), 0x6d08ff1e, 0x0, 0xd8a1e681, 0x2808fbf1, 0x3efc4a02, 0xabfc7920);
    Made(BLOCK, 23, Buf(0xb5b204e4, 0xabfc7920, 0x6d002f1e, 0x59a8ffda), 0x2da87904, 0x0, 0xe7d3fbc8, 0xcb2e79b0, 0x9b0cb2e7, 0x47092c07);
  }

  lemma After25()
    ensures Steps(INIT, BLOCK, 25) == Buf(0x6d002f1e, 0xb7f268cf, 0x47092c07, 0xabfc7920)
  {
    hide Steps;
    After24();
    Made(BLOCK, 24, Buf(0x59a8ffda, 0x47092c07, 0xabfc7920, 0x6d002f1e), 0xc7fc7c26, 0x0, 0x21e1cde6, 0x438749e6, 0x70e93cc8, 0xb7f268cf);
  }

  lemma After26()
    ensures Steps(INIT, BLOCK, 26) == Buf(0xabfc7920, 0x09388eff, 0xb7f268cf, 0x47092c07)
  {
    hide Steps;
    After25();
    Made(BLOCK, 25, Buf(0x6d002f1e, 0xb7f268cf, 0x47092c07, 0xabfc7920), 0xe7f16c07, 0x18, 0xc33707d6, 0x1828a313, 0x51462630, 0x09388eff);
  }

  lemma After28()
    ensures Steps(INIT, BLOCK, 28) == Buf(0xb7f268cf, 0x786acb8f, 0xfe1623b1, 0x09388eff)
  {
    hide Steps;
    After26();
    Made(BLOCK, 26, Buf(0xabfc7920, 0x09388eff, 0xb7f268cf, 0x47092c07), 0xb1fa4ccf, 0x0, 0xf4d50d87, 0x52cbd376, 0xf4dd94b2, 0xfe1623b1);
    Made(BLOCK, 27, Buf(0x47092c07, 0xfe1623b1, 0x09388eff, 0xb7f268cf), 0xbe1aa6b1, 0x0, 0x455a14ed, 0x4a7de7a5, 0x7a54a7de, 0x786acb8f);
  }

  lemma After30()
    ensures Steps(INIT, BLOCK, 30) == Buf(0xfe1623b1, 0x9f47e4f8, 0x790a77fb, 0x786acb8f)
  {
    hide Steps;
    After28();
    Made(BLOCK, 28, Buf(0xb7f268cf, 0x786acb8f, 0xfe1623b1, 0x09388eff), 0xfe2eab8f, 0x0, 0xa9e3e905, 0x6004fd63, 0x009fac6c, 0x790a77fb);
    Made(BLOCK, 29, Buf(0x09388eff, 0x790a77fb, 0x786acb8f, 0xfe1623b1), 0x786aebbf, 0x0, 0xfcefa3f8, 0x7e931eb6, 0x263d6cfd, 0x9f47e4f8);
  }

  lemma After32()
    ensures Steps(INIT, BLOCK, 32) == Buf(0x790a77fb, 0x726342d3, 0xa62884aa, 0x9f47e4f8)
  {
    hide Steps;
    After30();
    Made(BLOCK, 30, Buf(0xfe1623b1, 0x9f47e4f8, 0x790a77fb, 0x786acb8f), 0x1942f4f8, 0x0, 0x676f02d9, 0x7ec81b82, 0x06e09fb2, 0xa62884aa);
    Made(BLOCK, 31, Buf(0x786acb8f, 0xa62884aa, 0x9f47e4f8, 0x790a77fb), 0xa64d84aa, 0x0, 0x8d2a4c8a, 0xabe29cc3, 0xcc3abe29, 0x726342d3);
  }

  lemma After34()
    ensures Steps(INIT, BLOCK, 34) == Buf(0xa62884aa, 0x60127b2e, 0xb3707ebf, 0x726342d3)
  {
    hide Steps;
    After32();
    Made(BLOCK, 32, Buf(0x790a77fb, 0x726342d3, 0xa62884aa, 0x9f47e4f8), 0x4b0c2281, 0x0, 0xfffa3942, 0xc410d3be, 0x410d3bec, 0xb3707ebf);
    Made(BLOCK, 33, Buf(0x9f47e4f8, 0xb3707ebf, 0x726342d3, 0xa62884aa), 0x673bb8c6, 0x0, 0x8771f681, 0x8df5943f, 0xaca1fc6f, 0x60127b2e);
  }

  lemma After35()
    ensures Steps(INIT, BLOCK, 35) == Buf(0x726342d3, 0x8d212ff5, 0x60127b2e, 0xb3707ebf)
  {
    hide Steps;
    After34();
    Made(BLOCK, 34, Buf(0xa62884aa, 0x60127b2e, 0xb3707ebf, 0x726342d3), 0xa1014742, 0x0, 0x6d9d6122, 0xb4c72d0e, 0x2d0eb4c7, 0x8d212ff5);
  }

  lemma After36()
    ensures Steps(INIT, BLOCK, 36) == Buf(0xb3707ebf, 0x3b0875c7, 0x8d212ff5, 0x60127b2e)
  {
    hide Steps;
    After35();
    Made(BLOCK, 35, Buf(0x726342d3, 0x8d212ff5, 0x60127b2e, 0xb3707ebf), 0x5e432a64, 0x18, 0xfde5380c, 0xce8ba55b, 0xade745d2, 0x3b0875c7);
  }

  lemma After38()
    ensures Steps(INIT, BLOCK, 38) == Buf(0x8d212ff5, 0x6e7429d5, 0x21b117b9, 0x3b0875c7)
  {
    hide Steps;
    After36();
    Made(BLOCK, 36, Buf(0xb3707ebf, 0x3b0875c7, 0x8d212ff5, 0x60127b2e), 0xd63b211c, 0x0, 0xa4beea44, 0x2e6a8a1f, 0xe6a8a1f2, 0x21b117b9);
    Made(BLOCK, 37, Buf(0x60127b2e, 0x21b117b9, 0x3b0875c7, 0x8d212ff5), 0x97984d8b, 0x0, 0x4bdecfa9, 0x43899862, 0x4cc3121c, 0x6e7429d5);
  }

  lemma After40()
    ensures Steps(INIT, BLOCK, 40) == Buf(0x21b117b9, 0x5a2f5ea5, 0x3575227e, 0x6e7429d5)
  {
    hide Steps;
    After38();
    Made(BLOCK, 38, Buf(0x8d212ff5, 0x6e7429d5, 0x21b117b9, 0x3b0875c7), 0x74cd4bab, 0x0, 0xf6bb4b60, 0xf8a9c700, 0xc700f8a9, 0x3575227e);
    Made(BLOCK, 39, Buf(0x3b0875c7, 0x3575227e, 0x6e7429d5, 0x21b117b9), 0x7ab01c12, 0x0, 0xbebfbc70, 0x74784e49, 0x24ba3c27, 0x5a2f5ea5);
  }

  lemma After41()
    ensures Steps(INIT, BLOCK, 41) == Buf(0x6e7429d5, 0x11de1779, 0x5a2f5ea5, 0x3575227e)
  {
    hide Steps;
    After40();
    Made(BLOCK, 40, Buf(0x21b117b9, 0x5a2f5ea5, 0x3575227e, 0x6e7429d5), 0x012e550e, 0x0, 0x289b7ec6, 0x4b7aeb8d, 0xb7aeb8d4, 0x11de1779);
  }

  lemma After42()
    ensures Steps(INIT, BLOCK, 42) == Buf(0x3575227e, 0xfadcaa38, 0x11de1779, 0x5a2f5ea5)
  {
    hide Steps;
    After41();
    Made(BLOCK, 41, Buf(0x6e7429d5, 0x11de1779, 0x5a2f5ea5, 0x3575227e), 0x7e846ba2, 0x80636261, 0xeaa127fa, 0x57fd1fd2, 0xe8fe92bf, 0xfadcaa38);
  }

  lemma After44()
    ensures Steps(INIT, BLOCK, 44) == Buf(0x11de1779, 0x4c6124f4, 0x31c465ca, 0xfadcaa38)
  {
    hide Steps;
    After42();
    Made(BLOCK, 42, Buf(0x3575227e, 0xfadcaa38, 0x11de1779, 0x5a2f5ea5), 0xb12de3e4, 0x0, 0xd4ef3085, 0xbb9236e7, 0x36e7bb92, 0x31c465ca);
    Made(BLOCK, 43, Buf(0x5a2f5ea5, 0x31c465ca, 0xfadcaa38, 0x11de1779), 0xdac6d88b, 0x0, 0x04881d05, 0x397e5435, 0x1a9cbf2a, 0x4c6124f4);
  }

  lemma After46()
    ensures Steps(INIT, BLOCK, 46) == Buf(0x31c465ca, 0x99d9679d, 0x7f2e507b, 0x4c6124f4)
  {
    hide Steps;
    After44();
    Made(BLOCK, 44, Buf(0x11de1779, 0x4c6124f4, 0x31c465ca, 0xfadcaa38), 0x8779eb06, 0x0, 0xd9d4d039, 0x732cd2b8, 0x32cd2b87, 0x7f2e507b);
    Made(BLOCK, 45, Buf(0xfadcaa38, 0x7f2e507b, 0x4c6124f4, 0x31c465ca), 0x028b1145, 0x0, 0xe6db99e5, 0xe4435562, 0x1aab1722, 0x99d9679d);
  }

  lemma After48()
    ensures Steps(INIT, BLOCK, 48) == Buf(0x7f2e507b, 0x7beb9700, 0x8fae6399, 0x99d9679d)
  {
    hide Steps;
    After46();
    Made(BLOCK, 46, Buf(0x31c465ca, 0x99d9679d, 0x7f2e507b, 0x4c6124f4), 0xaa961312, 0x0, 0x1fa27cf8, 0xfbfcf5d4, 0xf5d4fbfc, 0x8fae6399);
    Made(BLOCK, 47, Buf(0x4c6124f4, 0x8fae6399, 0x99d9679d, 0x7f2e507b), 0x6959547f, 0x0, 0xc4ac5665, 0x7a66cfd8, 0xec3d3367, 0x7beb9700);
  }

  lemma After50()
    ensures Steps(INIT, BLOCK, 50) == Buf(0x8fae6399, 0xf4e8e96e, 0x7b201df8, 0x7beb9700)
  {
    hide Steps;
    After48();
    Made(BLOCK, 48, Buf(0x7f2e507b, 0x7beb9700, 0x8fae6399, 0x99d9679d), 0xf041fcfb, 0x80636261, 0xf4292244, 0xe3fcd21b, 0xff3486f8, 0x7b201df8);
    Made(BLOCK, 49, Buf(0x99d9679d, 0x7b201df8, 0x7beb9700, 0x8fae6399), 0x009a0afe, 0x0, 0x432aff97, 0xdd9e7232, 0x79c8cb76, 0xf4e8e96e);
  }

  lemma After52()
    ensures Steps(INIT, BLOCK, 52) == Buf(0x7b201df8, 0x8bf025c4, 0xb298cefd, 0xf4e8e96e)
  {
    hide Steps;
    After50();
    Made(BLOCK, 50, Buf(0x8fae6399, 0xf4e8e96e, 0x7b201df8, 0x7beb9700), 0x8fdcf407, 0x18, 0xab9423a7, 0xcb1f7b5f, 0xbdafe58f, 0xb298cefd);
    Made(BLOCK, 51, Buf(0x7beb9700, 0xb298cefd, 0xf4e8e96e, 0x7b201df8), 0x42370791, 0x0, 0xfc93a039, 0xbab63eca, 0xd95756c7, 0x8bf025c4);
  }

  lemma After54()
    ensures Steps(INIT, BLOCK, 54) == Buf(0xb298cefd, 0x5b0d97aa, 0x06cc5e8a, 0x8bf025c4)
  {
    hide Steps;
    After52();
    Made(BLOCK, 52, Buf(0x7b201df8, 0x8bf025c4, 0xb298cefd, 0xf4e8e96e), 0x396ff928, 0x0, 0x655b59c3, 0x19eb70e3, 0x7adc38c6, 0x06cc5e8a);
    Made(BLOCK, 53, Buf(0xf4e8e96e, 0x06cc5e8a, 0x8bf025c4, 0xb298cefd), 0xc41f5a4e, 0x0, 0x8f0ccc92, 0x4815104e, 0x54413920, 0x5b0d97aa);
  }

  lemma After56()
    ensures Steps(INIT, BLOCK, 56) == Buf(0x06cc5e8a, 0x3bfa2c27, 0x7d632dd0, 0x5b0d97aa)
  {
    hide Steps;
    After54();
    Made(BLOCK, 54, Buf(0xb298cefd, 0x5b0d97aa, 0x06cc5e8a, 0x8bf025c4), 0x79c38131, 0x0, 0xffeff47d, 0x2c4c44ab, 0x22559626, 0x7d632dd0);
    Made(BLOCK, 55, Buf(0x8bf025c4, 0x7d632dd0, 0x5b0d97aa, 0x06cc5e8a), 0xa67e3a5f, 0x0, 0x85845dd1, 0xb7f2bdf4, 0xbe96fe57, 0x3bfa2c27);
  }

  lemma After58()
    ensures Steps(INIT, BLOCK, 58) == Buf(0x7d632dd0, 0x094454ab, 0x7f81cc35, 0x3bfa2c27)
  {
    hide Steps;
    After56();
    Made(BLOCK, 56, Buf(0x06cc5e8a, 0x3bfa2c27, 0x7d632dd0, 0x5b0d97aa), 0xc29941a7, 0x0, 0x6fa87e4f, 0x390e1e80, 0x4387a00e, 0x7f81cc35);
    Made(BLOCK, 57, Buf(0x5b0d97aa, 0x7f81cc35, 0x3bfa2c27, 0x7d632dd0), 0xc467f218, 0x0, 0xfe2ce6e0, 0x1da270a2, 0x89c28876, 0x094454ab);
  }

  lemma After60()
    ensures Steps(INIT, BLOCK, 60) == Buf(0x7f81cc35, 0x7327d604, 0x4f9dbe3f, 0x094454ab)
  {
    hide Steps;
    After58();
    Made(BLOCK, 58, Buf(0x7d632dd0, 0x094454ab, 0x7f81cc35, 0x3bfa2c27), 0xb2c41bce, 0x0, 0xa3014314, 0xd3288cb2, 0x46596994, 0x4f9dbe3f);
    Made(BLOCK, 59, Buf(0x3bfa2c27, 0x4f9dbe3f, 0x094454ab, 0x7f81cc35), 0xc6bbeb54, 0x0, 0x4e0811a1, 0x50be291c, 0x238a17c5, 0x7327d604);
  }

  lemma After62()
    ensures Steps(INIT, BLOCK, 62) == Buf(0x4f9dbe3f, 0x624d8cb2, 0x310ade8f, 0x7327d604)
  {
    hide Steps;
    After60();
    Made(BLOCK, 60, Buf(0x7f81cc35, 0x7327d604, 0x4f9dbe3f, 0x094454ab), 0xb822416b, 0x0, 0xf7537e82, 0x2ef78c22, 0xbde3088b, 0x310ade8f);
    Made(BLOCK, 61, Buf(0x094454ab, 0x310ade8f, 0x7327d604, 0x4f9dbe3f), 0xc24d09cb, 0x0, 0xbd3af235, 0x88cc50ab, 0x3142ae23, 0x624d8cb2);
  }

  lemma After64()
    ensures Steps(INIT, BLOCK, 64) == Buf(0x310ade8f, 0xc08226b3, 0xe484b9d8, 0x624d8cb2)
  {
    hide Steps;
    After62();
    Made(BLOCK, 62, Buf(0x4f9dbe3f, 0x624d8cb2, 0x310ade8f, 0x7327d604), 0xdfd77374, 0x0, 0x2ad7d2bb, 0x5a4d046e, 0x82372d26, 0xe484b9d8);
    Made(BLOCK, 63, Buf(0x7327d604, 0xe484b9d8, 0x624d8cb2, 0x310ade8f), 0x8cb8354a, 0x0, 0xeb86d391, 0xeb66dedf, 0xdbfd6cdb, 0xc08226b3);
  }

  lemma Ended()
    ensures Plus(INIT, Buf(0x310ade8f, 0xc08226b3, 0xe484b9d8, 0x624d8cb2)) == Buf(0x98500190, 0xb04fd23c, 0x7d3f96d6, 0x727fe128)
  {
  }

  lemma Compressed()
    ensures Compress(INIT, BLOCK) == Buf(0x98500190, 0xb04fd23c, 0x7d3f96d6, 0x727fe128)
  {
    hide Steps, Plus;
    After64();
    Ended();
  }

  function OneBlockOf(): (block: seq<byte>)
    ensures |block| == 64
  {
    [0x61, 0x62, 0x63] + [0x80] + Zeros(52) + [24, 0, 0, 0, 0, 0, 0, 0]
  }

  lemma WordBytes()
    ensures LeBytes(24 as word) == [24, 0, 0, 0] && LeBytes(0 as word) == [0, 0, 0, 0]
  {
  }

  lemma BitsOfAbc()
    ensures LengthLow(3) == 24 && LengthHigh(3) == 0
  {
  }

  lemma LengthOfAbc()
    ensures Length(3) == [24, 0, 0, 0, 0, 0, 0, 0]
  {
    hide Length, LeBytes, LengthLow, LengthHigh;
    BitsOfAbc();
    LengthSplit(3);
    WordBytes();
  }

  lemma PaddedAbc()
    ensures Padded(ABC, Length(3)) == OneBlockOf()
  {
    LengthOfAbc();
    hide Length;
  }

  lemma QuadOf(i: nat)
    requires 0 < i < 16 && i != 14
    ensures OneBlockOf()[4 * i..4 * i + 4] == [0, 0, 0, 0]
  {
    var block := OneBlockOf();
    assert forall j :: 4 <= j < 64 && j != 56 ==> block[j] == 0;
    var q := block[4 * i..4 * i + 4];
    assert q[0] == block[4 * i] && q[1] == block[4 * i + 1] && q[2] == block[4 * i + 2] && q[3] == block[4 * i + 3];
    assert q == [q[0], q[1], q[2], q[3]];
  }

  lemma Lows()
    ensures Le(0x61, 0x62, 0x63, 0x80) == 0x80636261 && Le(24, 0, 0, 0) == 24 && Le(0, 0, 0, 0) == 0
  {
  }

  lemma BlockWords()
    ensures Loads(false, OneBlockOf()) == BLOCK
  {
    var block := OneBlockOf();
    assert block[0..4] == [0x61, 0x62, 0x63, 0x80] && block[56..60] == [24, 0, 0, 0];
    hide OneBlockOf, Le;
    forall i | 0 < i < 16 && i != 14 ensures block[4 * i..4 * i + 4] == [0, 0, 0, 0] {
      QuadOf(i);
    }
    Lows();
  }

  lemma OutputBytes()
    ensures Output(Buf(0x98500190, 0xb04fd23c, 0x7d3f96d6, 0x727fe128)) == [0x90, 0x01, 0x50, 0x98, 0x3c, 0xd2, 0x4f, 0xb0, 0xd6, 0x96, 0x3f, 0x7d, 0x28, 0xe1, 0x7f, 0x72]
  {
  }

  /** The digest as published. */
  lemma KnownAnswer()
    ensures Hash([0x61, 0x62, 0x63]) == [0x90, 0x01, 0x50, 0x98, 0x3c, 0xd2, 0x4f, 0xb0, 0xd6, 0x96, 0x3f, 0x7d, 0x28, 0xe1, 0x7f, 0x72]
  {
    hide Compress, Loads, Padded, Output, OneBlockOf, Length, Fold;
    PaddedAbc();
    OneBlock(BlockTransform(), INIT, OneBlockOf());
    BlockWords();
    Compressed();
    OutputBytes();
  }
}
