/**
 * The MD5 block transform.  The program abbreviates the first two functions, unrolls the steps
 * and lets the four variables change roles; the definition it is measured against is the rolled
 * form of section 3.4 of RFC 1321.
 */
module Md5 {
  import opened Words

  // ----- the definition: section 3.4 of RFC 1321

  /** The four state words, in the roles a, b, c, d of the next step. */
  datatype Buf = Buf(a: word, b: word, c: word, d: word)

  const INIT := Buf(0x67452301, 0xefcdab89, 0x98badcfe, 0x10325476)

  function F(x: word, y: word, z: word): word { (x & y) | (!x & z) }
  function G(x: word, y: word, z: word): word { (x & z) | (y & !z) }
  function H(x: word, y: word, z: word): word { x ^ y ^ z }
  function I(x: word, y: word, z: word): word { y ^ (x | !z) }

  /** The function of step t, counted from 0. */
  function Mix(t: nat, x: word, y: word, z: word): word {
    if t < 16 then F(x, y, z) else if t < 32 then G(x, y, z) else if t < 48 then H(x, y, z) else I(x, y, z)
  }

  /** The input word of step t. */
  function Index(t: nat): (k: nat)
    ensures k < 16
  {
    (if t < 16 then t else if t < 32 then 5 * t + 1 else if t < 48 then 3 * t + 5 else 7 * t) % 16
  }

  /** The rotation of step t. */
  function Shift(t: nat): (s: nat)
    ensures 0 < s < 32
  {
    var q, r := t / 16, t % 4;
    if q == 0 then (if r == 0 then 7 else if r == 1 then 12 else if r == 2 then 17 else 22)
    else if q == 1 then (if r == 0 then 5 else if r == 1 then 9 else if r == 2 then 14 else 20)
    else if q == 2 then (if r == 0 then 4 else if r == 1 then 11 else if r == 2 then 16 else 23)
    else (if r == 0 then 6 else if r == 1 then 10 else if r == 2 then 15 else 21)
  }

  // the integer part of 4294967296 times abs(sin(t + 1)), t in radians
  const T1: seq<word> := [
    0xd76aa478, 0xe8c7b756, 0x242070db, 0xc1bdceee,
    0xf57c0faf, 0x4787c62a, 0xa8304613, 0xfd469501,
    0x698098d8, 0x8b44f7af, 0xffff5bb1, 0x895cd7be,
    0x6b901122, 0xfd987193, 0xa679438e, 0x49b40821]
  const T2: seq<word> := [
    0xf61e2562, 0xc040b340, 0x265e5a51, 0xe9b6c7aa,
    0xd62f105d, 0x02441453, 0xd8a1e681, 0xe7d3fbc8,
    0x21e1cde6, 0xc33707d6, 0xf4d50d87, 0x455a14ed,
    0xa9e3e905, 0xfcefa3f8, 0x676f02d9, 0x8d2a4c8a]
  const T3: seq<word> := [
    0xfffa3942, 0x8771f681, 0x6d9d6122, 0xfde5380c,
    0xa4beea44, 0x4bdecfa9, 0xf6bb4b60, 0xbebfbc70,
    0x289b7ec6, 0xeaa127fa, 0xd4ef3085, 0x04881d05,
    0xd9d4d039, 0xe6db99e5, 0x1fa27cf8, 0xc4ac5665]
  const T4: seq<word> := [
    0xf4292244, 0x432aff97, 0xab9423a7, 0xfc93a039,
    0x655b59c3, 0x8f0ccc92, 0xffeff47d, 0x85845dd1,
    0x6fa87e4f, 0xfe2ce6e0, 0xa3014314, 0x4e0811a1,
    0xf7537e82, 0xbd3af235, 0x2ad7d2bb, 0xeb86d391]

  /** The constant of step t. */
  function T(t: nat): word {
    if t < 16 then T1[t] else if t < 32 then T2[t - 16] else if t < 48 then T3[t - 32] else if t < 64 then T4[t - 48] else 0
  }

  /** A circular left shift. */
  function Rotate(x: word, s: nat): word
    requires s <= 32
  {
    (x << s) | (x >> (32 - s))
  }

  /** Addition modulo 2^32. */
  function Add(x: word, y: word): word {
    x + y
  }

  function Sum4(x: word, y: word, z: word, w: word): word {
    x + y + z + w
  }

  /** The state after t steps. */
  function Steps(h: Buf, block: seq<word>, t: nat): Buf
    requires |block| == 16
  {
    if t == 0 then h
    else
      var s := Steps(h, block, t - 1);
      var sum := Sum4(s.a, Mix(t - 1, s.b, s.c, s.d), block[Index(t - 1)], T(t - 1));
      Buf(s.d, Add(s.b, Rotate(sum, Shift(t - 1))), s.b, s.c)
  }

  function Plus(h: Buf, s: Buf): Buf {
    Buf(Add(h.a, s.a), Add(h.b, s.b), Add(h.c, s.c), Add(h.d, s.d))
  }

  /** The state after one block. */
  function Compress(h: Buf, block: seq<word>): Buf
    requires |block| == 16
  {
    Plus(h, Steps(h, block, 64))
  }

  // ----- the program's macros

  datatype Fun = F1 | F2 | F3 | F4

  function Short(x: word, y: word, z: word): word { z ^ (x & (y ^ z)) }

  function Apply(f: Fun, x: word, y: word, z: word): word {
    match f
    case F1 => Short(x, y, z)
    case F2 => Short(z, x, y)
    case F3 => H(x, y, z)
    case F4 => I(x, y, z)
  }

  function FunAt(t: nat): Fun {
    if t < 16 then F1 else if t < 32 then F2 else if t < 48 then F3 else F4
  }

  lemma ShortBits(x: word, y: word, z: word)
    ensures z ^ (x & (y ^ z)) == (x & y) | (!x & z)
  {
  }

  lemma SwappedBits(x: word, y: word, z: word)
    ensures y ^ (z & (x ^ y)) == (x & z) | (y & !z)
  {
  }

  lemma ShortIsF(x: word, y: word, z: word)
    ensures Short(x, y, z) == F(x, y, z)
  {
    ShortBits(x, y, z);
  }

  lemma ShortIsG(x: word, y: word, z: word)
    ensures Short(z, x, y) == G(x, y, z)
  {
    SwappedBits(x, y, z);
  }

  /** The abbreviated function, and the same with its arguments turned, are the first two of section 3.4. */
  lemma ApplyIsMix(t: nat, x: word, y: word, z: word)
    ensures Apply(FunAt(t), x, y, z) == Mix(t, x, y, z)
  {
    ShortIsF(x, y, z);
    ShortIsG(x, y, z);
    hide F, G, H, I, Short;
  }

  /** The same sum as the program groups it. */
  function Increase(w: word, f: word, x: word, k: word): word {
    w + (f + (x + k))
  }

  lemma Regroup(w: word, f: word, x: word, k: word)
    ensures Increase(w, f, x, k) == Sum4(w, f, x, k)
  {
  }

  /** Step t takes function f, input word j, constant k and rotation s. */
  ghost predicate Line(f: Fun, j: nat, k: word, s: nat, t: nat) {
    f == FunAt(t) && j == Index(t) && k == T(t) && s == Shift(t)
  }

  lemma AddTurned(x: word, y: word)
    ensures Add(x, y) == Add(y, x)
  {
  }

  /**
   * MD5STEP: updates one of the four variables.  With its arguments holding the state before step t
   * in their roles, the result and the other three, in their next roles, hold the state after it.
   */
  method Step(f: Fun, w: word, x: word, y: word, z: word, data: word, k: word, s: nat,
              ghost h: Buf, ghost block: seq<word>, ghost j: nat, ghost t: nat) returns (w': word)
    requires |block| == 16 && s <= 32 && j < 16 && data == block[j] && Line(f, j, k, s, t)
    requires Steps(h, block, t) == Buf(w, x, y, z)
    ensures Steps(h, block, t + 1) == Buf(z, w', x, y)
  {
    hide Apply, Mix, FunAt, T, Index, Shift, Rotate, Sum4, Increase, Add;
    w' := Increase(w, Apply(f, x, y, z), data, k);
    w' := Rotate(w', s);
    w' := Add(w', x);
    ApplyIsMix(t, x, y, z);
    Regroup(w, Apply(f, x, y, z), data, k);
    AddTurned(Rotate(Sum4(w, Apply(f, x, y, z), data, k), s), x);
  }

  ghost function Value(d: seq<word>): Buf
    requires |d| == 4
  {
    Buf(d[0], d[1], d[2], d[3])
  }

  // ----- the sixty-four lines of MD5Transform, eight to a method

  /** What the definition says of steps 0 to 7. */
  lemma Table1(z: nat)
    requires z == 0
    ensures Line(F1, 0, 0xd76aa478, 7, z + 0)
    ensures Line(F1, 1, 0xe8c7b756, 12, z + 1)
    ensures Line(F1, 2, 0x242070db, 17, z + 2)
    ensures Line(F1, 3, 0xc1bdceee, 22, z + 3)
    ensures Line(F1, 4, 0xf57c0faf, 7, z + 4)
    ensures Line(F1, 5, 0x4787c62a, 12, z + 5)
    ensures Line(F1, 6, 0xa8304613, 17, z + 6)
    ensures Line(F1, 7, 0xfd469501, 22, z + 7)
  {
  }

  method Steps0to7(input: array<word>, a: word, b: word, c: word, d: word, ghost h: Buf, ghost block: seq<word>, ghost z: nat)
    returns (A: word, B: word, C: word, D: word)
    requires |block| == 16 && input[..] == block
    requires z == 0 && Steps(h, block, z + 0) == Buf(a, b, c, d)
    ensures Steps(h, block, z + 8) == Buf(A, B, C, D)
  {
    hide *;
    A, B, C, D := a, b, c, d;
    Table1(z);
    A := Step(F1, A, B, C, D, input[0], 0xd76aa478, 7, h, block, 0, z + 0);
    D := Step(F1, D, A, B, C, input[1], 0xe8c7b756, 12, h, block, 1, z + 1);
    C := Step(F1, C, D, A, B, input[2], 0x242070db, 17, h, block, 2, z + 2);
    B := Step(F1, B, C, D, A, input[3], 0xc1bdceee, 22, h, block, 3, z + 3);
    A := Step(F1, A, B, C, D, input[4], 0xf57c0faf, 7, h, block, 4, z + 4);
    D := Step(F1, D, A, B, C, input[5], 0x4787c62a, 12, h, block, 5, z + 5);
    C := Step(F1, C, D, A, B, input[6], 0xa8304613, 17, h, block, 6, z + 6);
    B := Step(F1, B, C, D, A, input[7], 0xfd469501, 22, h, block, 7, z + 7);
  }

  /** What the definition says of steps 8 to 15. */
  lemma Table2(z: nat)
    requires z == 0
    ensures Line(F1, 8, 0x698098d8, 7, z + 8)
    ensures Line(F1, 9, 0x8b44f7af, 12, z + 9)
    ensures Line(F1, 10, 0xffff5bb1, 17, z + 10)
    ensures Line(F1, 11, 0x895cd7be, 22, z + 11)
    ensures Line(F1, 12, 0x6b901122, 7, z + 12)
    ensures Line(F1, 13, 0xfd987193, 12, z + 13)
    ensures Line(F1, 14, 0xa679438e, 17, z + 14)
    ensures Line(F1, 15, 0x49b40821, 22, z + 15)
  {
  }

  method Steps8to15(input: array<word>, a: word, b: word, c: word, d: word, ghost h: Buf, ghost block: seq<word>, ghost z: nat)
    returns (A: word, B: word, C: word, D: word)
    requires |block| == 16 && input[..] == block
    requires z == 0 && Steps(h, block, z + 8) == Buf(a, b, c, d)
    ensures Steps(h, block, z + 16) == Buf(A, B, C, D)
  {
    hide *;
    A, B, C, D := a, b, c, d;
    Table2(z);
    A := Step(F1, A, B, C, D, input[8], 0x698098d8, 7, h, block, 8, z + 8);
    D := Step(F1, D, A, B, C, input[9], 0x8b44f7af, 12, h, block, 9, z + 9);
    C := Step(F1, C, D, A, B, input[10], 0xffff5bb1, 17, h, block, 10, z + 10);
    B := Step(F1, B, C, D, A, input[11], 0x895cd7be, 22, h, block, 11, z + 11);
    A := Step(F1, A, B, C, D, input[12], 0x6b901122, 7, h, block, 12, z + 12);
    D := Step(F1, D, A, B, C, input[13], 0xfd987193, 12, h, block, 13, z + 13);
    C := Step(F1, C, D, A, B, input[14], 0xa679438e, 17, h, block, 14, z + 14);
    B := Step(F1, B, C, D, A, input[15], 0x49b40821, 22, h, block, 15, z + 15);
  }

  /** What the definition says of steps 16 to 23. */
  lemma Table3(z: nat)
    requires z == 0
    ensures Line(F2, 1, 0xf61e2562, 5, z + 16)
    ensures Line(F2, 6, 0xc040b340, 9, z + 17)
    ensures Line(F2, 11, 0x265e5a51, 14, z + 18)
    ensures Line(F2, 0, 0xe9b6c7aa, 20, z + 19)
    ensures Line(F2, 5, 0xd62f105d, 5, z + 20)
    ensures Line(F2, 10, 0x02441453, 9, z + 21)
    ensures Line(F2, 15, 0xd8a1e681, 14, z + 22)
    ensures Line(F2, 4, 0xe7d3fbc8, 20, z + 23)
  {
  }

  method Steps16to23(input: array<word>, a: word, b: word, c: word, d: word, ghost h: Buf, ghost block: seq<word>, ghost z: nat)
    returns (A: word, B: word, C: word, D: word)
    requires |block| == 16 && input[..] == block
    requires z == 0 && Steps(h, block, z + 16) == Buf(a, b, c, d)
    ensures Steps(h, block, z + 24) == Buf(A, B, C, D)
  {
    hide *;
    A, B, C, D := a, b, c, d;
    Table3(z);
    A := Step(F2, A, B, C, D, input[1], 0xf61e2562, 5, h, block, 1, z + 16);
    D := Step(F2, D, A, B, C, input[6], 0xc040b340, 9, h, block, 6, z + 17);
    C := Step(F2, C, D, A, B, input[11], 0x265e5a51, 14, h, block, 11, z + 18);
    B := Step(F2, B, C, D, A, input[0], 0xe9b6c7aa, 20, h, block, 0, z + 19);
    A := Step(F2, A, B, C, D, input[5], 0xd62f105d, 5, h, block, 5, z + 20);
    D := Step(F2, D, A, B, C, input[10], 0x02441453, 9, h, block, 10, z + 21);
    C := Step(F2, C, D, A, B, input[15], 0xd8a1e681, 14, h, block, 15, z + 22);
    B := Step(F2, B, C, D, A, input[4], 0xe7d3fbc8, 20, h, block, 4, z + 23);
  }

  /** What the definition says of steps 24 to 31. */
  lemma Table4(z: nat)
    requires z == 0
    ensures Line(F2, 9, 0x21e1cde6, 5, z + 24)
    ensures Line(F2, 14, 0xc33707d6, 9, z + 25)
    ensures Line(F2, 3, 0xf4d50d87, 14, z + 26)
    ensures Line(F2, 8, 0x455a14ed, 20, z + 27)
    ensures Line(F2, 13, 0xa9e3e905, 5, z + 28)
    ensures Line(F2, 2, 0xfcefa3f8, 9, z + 29)
    ensures Line(F2, 7, 0x676f02d9, 14, z + 30)
    ensures Line(F2, 12, 0x8d2a4c8a, 20, z + 31)
  {
  }

  method Steps24to31(input: array<word>, a: word, b: word, c: word, d: word, ghost h: Buf, ghost block: seq<word>, ghost z: nat)
    returns (A: word, B: word, C: word, D: word)
    requires |block| == 16 && input[..] == block
    requires z == 0 && Steps(h, block, z + 24) == Buf(a, b, c, d)
    ensures Steps(h, block, z + 32) == Buf(A, B, C, D)
  {
    hide *;
    A, B, C, D := a, b, c, d;
    Table4(z);
    A := Step(F2, A, B, C, D, input[9], 0x21e1cde6, 5, h, block, 9, z + 24);
    D := Step(F2, D, A, B, C, input[14], 0xc33707d6, 9, h, block, 14, z + 25);
    C := Step(F2, C, D, A, B, input[3], 0xf4d50d87, 14, h, block, 3, z + 26);
    B := Step(F2, B, C, D, A, input[8], 0x455a14ed, 20, h, block, 8, z + 27);
    A := Step(F2, A, B, C, D, input[13], 0xa9e3e905, 5, h, block, 13, z + 28);
    D := Step(F2, D, A, B, C, input[2], 0xfcefa3f8, 9, h, block, 2, z + 29);
    C := Step(F2, C, D, A, B, input[7], 0x676f02d9, 14, h, block, 7, z + 30);
    B := Step(F2, B, C, D, A, input[12], 0x8d2a4c8a, 20, h, block, 12, z + 31);
  }

  /** What the definition says of steps 32 to 39. */
  lemma Table5(z: nat)
    requires z == 0
    ensures Line(F3, 5, 0xfffa3942, 4, z + 32)
    ensures Line(F3, 8, 0x8771f681, 11, z + 33)
    ensures Line(F3, 11, 0x6d9d6122, 16, z + 34)
    ensures Line(F3, 14, 0xfde5380c, 23, z + 35)
    ensures Line(F3, 1, 0xa4beea44, 4, z + 36)
    ensures Line(F3, 4, 0x4bdecfa9, 11, z + 37)
    ensures Line(F3, 7, 0xf6bb4b60, 16, z + 38)
    ensures Line(F3, 10, 0xbebfbc70, 23, z + 39)
  {
  }

  method Steps32to39(input: array<word>, a: word, b: word, c: word, d: word, ghost h: Buf, ghost block: seq<word>, ghost z: nat)
    returns (A: word, B: word, C: word, D: word)
    requires |block| == 16 && input[..] == block
    requires z == 0 && Steps(h, block, z + 32) == Buf(a, b, c, d)
    ensures Steps(h, block, z + 40) == Buf(A, B, C, D)
  {
    hide *;
    A, B, C, D := a, b, c, d;
    Table5(z);
    A := Step(F3, A, B, C, D, input[5], 0xfffa3942, 4, h, block, 5, z + 32);
    D := Step(F3, D, A, B, C, input[8], 0x8771f681, 11, h, block, 8, z + 33);
    C := Step(F3, C, D, A, B, input[11], 0x6d9d6122, 16, h, block, 11, z + 34);
    B := Step(F3, B, C, D, A, input[14], 0xfde5380c, 23, h, block, 14, z + 35);
    A := Step(F3, A, B, C, D, input[1], 0xa4beea44, 4, h, block, 1, z + 36);
    D := Step(F3, D, A, B, C, input[4], 0x4bdecfa9, 11, h, block, 4, z + 37);
    C := Step(F3, C, D, A, B, input[7], 0xf6bb4b60, 16, h, block, 7, z + 38);
    B := Step(F3, B, C, D, A, input[10], 0xbebfbc70, 23, h, block, 10, z + 39);
  }

  /** What the definition says of steps 40 to 47. */
  lemma Table6(z: nat)
    requires z == 0
    ensures Line(F3, 13, 0x289b7ec6, 4, z + 40)
    ensures Line(F3, 0, 0xeaa127fa, 11, z + 41)
    ensures Line(F3, 3, 0xd4ef3085, 16, z + 42)
    ensures Line(F3, 6, 0x04881d05, 23, z + 43)
    ensures Line(F3, 9, 0xd9d4d039, 4, z + 44)
    ensures Line(F3, 12, 0xe6db99e5, 11, z + 45)
    ensures Line(F3, 15, 0x1fa27cf8, 16, z + 46)
    ensures Line(F3, 2, 0xc4ac5665, 23, z + 47)
  {
  }

  method Steps40to47(input: array<word>, a: word, b: word, c: word, d: word, ghost h: Buf, ghost block: seq<word>, ghost z: nat)
    returns (A: word, B: word, C: word, D: word)
    requires |block| == 16 && input[..] == block
    requires z == 0 && Steps(h, block, z + 40) == Buf(a, b, c, d)
    ensures Steps(h, block, z + 48) == Buf(A, B, C, D)
  {
    hide *;
    A, B, C, D := a, b, c, d;
    Table6(z);
    A := Step(F3, A, B, C, D, input[13], 0x289b7ec6, 4, h, block, 13, z + 40);
    D := Step(F3, D, A, B, C, input[0], 0xeaa127fa, 11, h, block, 0, z + 41);
    C := Step(F3, C, D, A, B, input[3], 0xd4ef3085, 16, h, block, 3, z + 42);
    B := Step(F3, B, C, D, A, input[6], 0x04881d05, 23, h, block, 6, z + 43);
    A := Step(F3, A, B, C, D, input[9], 0xd9d4d039, 4, h, block, 9, z + 44);
    D := Step(F3, D, A, B, C, input[12], 0xe6db99e5, 11, h, block, 12, z + 45);
    C := Step(F3, C, D, A, B, input[15], 0x1fa27cf8, 16, h, block, 15, z + 46);
    B := Step(F3, B, C, D, A, input[2], 0xc4ac5665, 23, h, block, 2, z + 47);
  }

  /** What the definition says of steps 48 to 55. */
  lemma Table7(z: nat)
    requires z == 0
    ensures Line(F4, 0, 0xf4292244, 6, z + 48)
    ensures Line(F4, 7, 0x432aff97, 10, z + 49)
    ensures Line(F4, 14, 0xab9423a7, 15, z + 50)
    ensures Line(F4, 5, 0xfc93a039, 21, z + 51)
    ensures Line(F4, 12, 0x655b59c3, 6, z + 52)
    ensures Line(F4, 3, 0x8f0ccc92, 10, z + 53)
    ensures Line(F4, 10, 0xffeff47d, 15, z + 54)
    ensures Line(F4, 1, 0x85845dd1, 21, z + 55)
  {
  }

  method Steps48to55(input: array<word>, a: word, b: word, c: word, d: word, ghost h: Buf, ghost block: seq<word>, ghost z: nat)
    returns (A: word, B: word, C: word, D: word)
    requires |block| == 16 && input[..] == block
    requires z == 0 && Steps(h, block, z + 48) == Buf(a, b, c, d)
    ensures Steps(h, block, z + 56) == Buf(A, B, C, D)
  {
    hide *;
    A, B, C, D := a, b, c, d;
    Table7(z);
    A := Step(F4, A, B, C, D, input[0], 0xf4292244, 6, h, block, 0, z + 48);
    D := Step(F4, D, A, B, C, input[7], 0x432aff97, 10, h, block, 7, z + 49);
    C := Step(F4, C, D, A, B, input[14], 0xab9423a7, 15, h, block, 14, z + 50);
    B := Step(F4, B, C, D, A, input[5], 0xfc93a039, 21, h, block, 5, z + 51);
    A := Step(F4, A, B, C, D, input[12], 0x655b59c3, 6, h, block, 12, z + 52);
    D := Step(F4, D, A, B, C, input[3], 0x8f0ccc92, 10, h, block, 3, z + 53);
    C := Step(F4, C, D, A, B, input[10], 0xffeff47d, 15, h, block, 10, z + 54);
    B := Step(F4, B, C, D, A, input[1], 0x85845dd1, 21, h, block, 1, z + 55);
  }

  /** What the definition says of steps 56 to 63. */
  lemma Table8(z: nat)
    requires z == 0
    ensures Line(F4, 8, 0x6fa87e4f, 6, z + 56)
    ensures Line(F4, 15, 0xfe2ce6e0, 10, z + 57)
    ensures Line(F4, 6, 0xa3014314, 15, z + 58)
    ensures Line(F4, 13, 0x4e0811a1, 21, z + 59)
    ensures Line(F4, 4, 0xf7537e82, 6, z + 60)
    ensures Line(F4, 11, 0xbd3af235, 10, z + 61)
    ensures Line(F4, 2, 0x2ad7d2bb, 15, z + 62)
    ensures Line(F4, 9, 0xeb86d391, 21, z + 63)
  {
  }

  method Steps56to63(input: array<word>, a: word, b: word, c: word, d: word, ghost h: Buf, ghost block: seq<word>, ghost z: nat)
    returns (A: word, B: word, C: word, D: word)
    requires |block| == 16 && input[..] == block
    requires z == 0 && Steps(h, block, z + 56) == Buf(a, b, c, d)
    ensures Steps(h, block, z + 64) == Buf(A, B, C, D)
  {
    hide *;
    A, B, C, D := a, b, c, d;
    Table8(z);
    A := Step(F4, A, B, C, D, input[8], 0x6fa87e4f, 6, h, block, 8, z + 56);
    D := Step(F4, D, A, B, C, input[15], 0xfe2ce6e0, 10, h, block, 15, z + 57);
    C := Step(F4, C, D, A, B, input[6], 0xa3014314, 15, h, block, 6, z + 58);
    B := Step(F4, B, C, D, A, input[13], 0x4e0811a1, 21, h, block, 13, z + 59);
    A := Step(F4, A, B, C, D, input[4], 0xf7537e82, 6, h, block, 4, z + 60);
    D := Step(F4, D, A, B, C, input[11], 0xbd3af235, 10, h, block, 11, z + 61);
    C := Step(F4, C, D, A, B, input[2], 0x2ad7d2bb, 15, h, block, 2, z + 62);
    B := Step(F4, B, C, D, A, input[9], 0xeb86d391, 21, h, block, 9, z + 63);
  }

  lemma Begin(h: Buf, block: seq<word>, z: nat)
    requires |block| == 16 && z == 0
    ensures Steps(h, block, z) == h
  {
  }

  /** MD5Transform */
  method MD5Transform(buf: array<word>, input: array<word>)
    requires buf.Length == 4 && input.Length == 16 && buf != input
    modifies buf
    ensures Value(buf[..]) == Compress(old(Value(buf[..])), input[..])
  {
    hide Steps, Add;
    ghost var h, block := Value(buf[..]), input[..];
    ghost var z := 0;  // z + t rather than a literal t, which the verifier would unroll
    Begin(h, block, z);
    var a, b, c, d := Steps0to7(input, buf[0], buf[1], buf[2], buf[3], h, block, z);
    a, b, c, d := Steps8to15(input, a, b, c, d, h, block, z);
    a, b, c, d := Steps16to23(input, a, b, c, d, h, block, z);
    a, b, c, d := Steps24to31(input, a, b, c, d, h, block, z);
    a, b, c, d := Steps32to39(input, a, b, c, d, h, block, z);
    a, b, c, d := Steps40to47(input, a, b, c, d, h, block, z);
    a, b, c, d := Steps48to55(input, a, b, c, d, h, block, z);
    a, b, c, d := Steps56to63(input, a, b, c, d, h, block, z);
    buf[0] := Add(buf[0], a);
    buf[1] := Add(buf[1], b);
    buf[2] := Add(buf[2], c);
    buf[3] := Add(buf[3], d);
  }
}
