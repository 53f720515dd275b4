/**
 * The SHA-1 compression function.  The program keeps a circular schedule of 16 words and
 * unrolls the rounds, renaming the five working variables; the definition it is measured
 * against is the 80-word schedule and rolled loop of section 6.1 of RFC 3174.
 */
module Sha1 {
  type word = bv32

  // ----- the definition: sections 5 and 6.1 of RFC 3174

  datatype Digest = Digest(a: word, b: word, c: word, d: word, e: word)

  function Choice(b: word, c: word, d: word): word { (b & c) | (!b & d) }
  function Parity(b: word, c: word, d: word): word { b ^ c ^ d }
  function Majority(b: word, c: word, d: word): word { (b & c) | (b & d) | (c & d) }

  /** The logical function of round t (section 5). */
  function F(t: nat, b: word, c: word, d: word): word {
    if t < 20 then Choice(b, c, d)
    else if t < 40 then Parity(b, c, d)
    else if t < 60 then Majority(b, c, d)
    else Parity(b, c, d)
  }

  /** The constant of round t (section 5). */
  function K(t: nat): word {
    if t < 20 then 0x5A827999 else if t < 40 then 0x6ED9EBA1 else if t < 60 then 0x8F1BBCDC else 0xCA62C1D6
  }

  // circular left shifts; ROTL(n, X) is the same expression
  function S1(x: word): word { (x << 1) | (x >> 31) }
  function S5(x: word): word { (x << 5) | (x >> 27) }
  function S30(x: word): word { (x << 30) | (x >> 2) }

  function Xor4(a: word, b: word, c: word, d: word): word { a ^ b ^ c ^ d }

  /** Word t of the message schedule. */
  function W(block: seq<word>, t: nat): word
    requires |block| == 16
  {
    if t < 16 then block[t]
    else S1(Xor4(W(block, t - 3), W(block, t - 8), W(block, t - 14), W(block, t - 16)))
  }

  /** The five-term sum of a round. */
  function Temp(shifted: word, f: word, e: word, w: word, k: word): word {
    shifted + f + e + w + k
  }

  /** The working variables after t rounds. */
  function Rounds(h: Digest, block: seq<word>, t: nat): Digest
    requires |block| == 16
  {
    if t == 0 then h
    else
      var s := Rounds(h, block, t - 1);
      Digest(Temp(S5(s.a), F(t - 1, s.b, s.c, s.d), s.e, W(block, t - 1), K(t - 1)), s.a, S30(s.b), s.c, s.d)
  }

  /** Addition modulo 2^32. */
  function Add(x: word, y: word): word {
    x + y
  }

  function Plus(h: Digest, s: Digest): Digest {
    Digest(Add(h.a, s.a), Add(h.b, s.b), Add(h.c, s.c), Add(h.d, s.d), Add(h.e, s.e))
  }

  /** The digest after one block. */
  function Compress(h: Digest, block: seq<word>): Digest
    requires |block| == 16
  {
    Plus(h, Rounds(h, block, 80))
  }

  // ----- the program's macros

  datatype Fun = F1 | F2 | F3 | F4

  function ShortChoice(x: word, y: word, z: word): word { z ^ (x & (y ^ z)) }
  function ShortMajority(x: word, y: word, z: word): word { (x & y) | (z & (x | y)) }

  function Apply(f: Fun, x: word, y: word, z: word): word {
    match f
    case F1 => ShortChoice(x, y, z)
    case F2 => Parity(x, y, z)
    case F3 => ShortMajority(x, y, z)
    case F4 => Parity(x, y, z)
  }

  const K1: word := 0x5A827999
  const K2: word := 0x6ED9EBA1
  const K3: word := 0x8F1BBCDC
  const K4: word := 0xCA62C1D6

  function FunAt(t: nat): Fun {
    if t < 20 then F1 else if t < 40 then F2 else if t < 60 then F3 else F4
  }

  lemma ChoiceBits(x: word, y: word, z: word)
    ensures z ^ (x & (y ^ z)) == (x & y) | (!x & z)
  {
  }

  lemma ChoiceShortcut(x: word, y: word, z: word)
    ensures ShortChoice(x, y, z) == Choice(x, y, z)
  {
    ChoiceBits(x, y, z);
  }

  lemma MajorityBits(x: word, y: word, z: word)
    ensures (x & y) | (z & (x | y)) == (x & y) | (x & z) | (y & z)
  {
  }

  lemma MajorityShortcut(x: word, y: word, z: word)
    ensures ShortMajority(x, y, z) == Majority(x, y, z)
  {
    MajorityBits(x, y, z);
  }

  /** The abbreviated f1 and f3 are the functions of section 5. */
  lemma ApplyIsF(t: nat, x: word, y: word, z: word)
    ensures Apply(FunAt(t), x, y, z) == F(t, x, y, z)
  {
    ChoiceShortcut(x, y, z);
    MajorityShortcut(x, y, z);
    hide Choice, Parity, Majority, ShortChoice, ShortMajority;
  }

  lemma Regroup(r: word, f: word, e: word, w: word, k: word)
    ensures e + (r + f + k + w) == Temp(r, f, e, w, k)
  {
  }

  /**
   * subRound: updates two of the five variables.  With its arguments holding the working
   * variables of round t, the renamed result holds those of round t + 1.
   */
  method SubRound(a: word, b: word, c: word, d: word, e: word, f: Fun, k: word, data: word,
                  ghost h: Digest, ghost block: seq<word>, ghost t: nat)
    returns (e': word, b': word)
    requires |block| == 16
    requires Rounds(h, block, t) == Digest(a, b, c, d, e)
    requires f == FunAt(t) && k == K(t) && data == W(block, t)
    ensures Rounds(h, block, t + 1) == Digest(e', a, b', c, d)
  {
    hide W, K, Apply, F, S5, S30, FunAt, Temp;
    e' := e + (S5(a) + Apply(f, b, c, d) + k + data);
    b' := S30(b);
    ApplyIsF(t, b, c, d);
    Regroup(S5(a), Apply(f, b, c, d), e, data, k);
  }

  /** The circular buffer holds the 16 schedule words before word i. */
  ghost predicate Circular(s: seq<word>, block: seq<word>, i: nat)
    requires |block| == 16
  {
    |s| == 16 && i >= 16 && forall j: nat :: i - 16 <= j < i ==> s[j % 16] == W(block, j)
  }

  /** Replacing the oldest of the 16 words by the next one. */
  lemma CircularNext(s: seq<word>, block: seq<word>, i: nat, w: word)
    requires |block| == 16 && Circular(s, block, i) && w == W(block, i)
    ensures Circular(s[i % 16 := w], block, i + 1)
  {
    hide W;
    forall j: nat | i - 15 <= j < i + 1 ensures s[i % 16 := w][j % 16] == W(block, j) {
      if j < i {
        assert s[j % 16] == W(block, j);
      }
    }
  }

  lemma Xor4Reversed(a: word, b: word, c: word, d: word)
    ensures Xor4(a, b, c, d) == Xor4(d, c, b, a)
  {
  }

  /** expand: computes word i in the place of word i - 16. */
  method Expand(eData: array<word>, i: nat, ghost block: seq<word>) returns (w: word)
    requires |block| == 16 && Circular(eData[..], block, i)
    modifies eData
    ensures w == W(block, i) && Circular(eData[..], block, i + 1)
  {
    hide S1, Xor4;
    assert (i - 16) % 16 == i % 16;
    ghost var s := eData[..];
    assert s[(i - 16) % 16] == W(block, i - 16) && s[(i - 14) % 16] == W(block, i - 14);
    assert s[(i - 8) % 16] == W(block, i - 8) && s[(i - 3) % 16] == W(block, i - 3);
    w := S1(Xor4(eData[i % 16], eData[(i - 14) % 16], eData[(i - 8) % 16], eData[(i - 3) % 16]));
    Xor4Reversed(W(block, i - 16), W(block, i - 14), W(block, i - 8), W(block, i - 3));
    eData[i % 16] := w;
    CircularNext(s, block, i, w);
  }

  ghost function Value(d: seq<word>): Digest
    requires |d| == 5
  {
    Digest(d[0], d[1], d[2], d[3], d[4])
  }

  // ----- the eighty lines of SHSTransform, ten to a method

  lemma Begin(h: Digest, block: seq<word>)
    requires |block| == 16
    ensures Rounds(h, block, 0) == h
    ensures forall t: nat :: t < 16 ==> W(block, t) == block[t]
    ensures Circular(block, block, 16)
  {
  }

  method Rounds0to9(eData: array<word>, a: word, b: word, c: word, d: word, e: word, ghost h: Digest, ghost block: seq<word>)
    returns (A: word, B: word, C: word, D: word, E: word)
    requires |block| == 16 && eData[..] == block
    requires Rounds(h, block, 0) == Digest(a, b, c, d, e)
    modifies eData
    ensures eData[..] == block
    ensures Rounds(h, block, 10) == Digest(A, B, C, D, E)
  {
    hide Rounds, W, Circular;
    A, B, C, D, E := a, b, c, d, e;
    ghost var z := 0;  // z + t rather than a literal t, which the verifier would unroll

    Begin(h, block);
    E, B := SubRound(A, B, C, D, E, F1, K1, eData[0], h, block, z + 0);
    D, A := SubRound(E, A, B, C, D, F1, K1, eData[1], h, block, z + 1);
    C, E := SubRound(D, E, A, B, C, F1, K1, eData[2], h, block, z + 2);
    B, D := SubRound(C, D, E, A, B, F1, K1, eData[3], h, block, z + 3);
    A, C := SubRound(B, C, D, E, A, F1, K1, eData[4], h, block, z + 4);
    E, B := SubRound(A, B, C, D, E, F1, K1, eData[5], h, block, z + 5);
    D, A := SubRound(E, A, B, C, D, F1, K1, eData[6], h, block, z + 6);
    C, E := SubRound(D, E, A, B, C, F1, K1, eData[7], h, block, z + 7);
    B, D := SubRound(C, D, E, A, B, F1, K1, eData[8], h, block, z + 8);
    A, C := SubRound(B, C, D, E, A, F1, K1, eData[9], h, block, z + 9);
  }

  method Rounds10to19(eData: array<word>, a: word, b: word, c: word, d: word, e: word, ghost h: Digest, ghost block: seq<word>)
    returns (A: word, B: word, C: word, D: word, E: word)
    requires |block| == 16 && eData[..] == block
    requires Rounds(h, block, 10) == Digest(a, b, c, d, e)
    modifies eData
    ensures Circular(eData[..], block, 20)
    ensures Rounds(h, block, 20) == Digest(A, B, C, D, E)
  {
    hide Rounds, W, Circular;
    A, B, C, D, E := a, b, c, d, e;
    ghost var z := 0;  // z + t rather than a literal t, which the verifier would unroll
    var w: word;
    Begin(h, block);
    E, B := SubRound(A, B, C, D, E, F1, K1, eData[10], h, block, z + 10);
    D, A := SubRound(E, A, B, C, D, F1, K1, eData[11], h, block, z + 11);
    C, E := SubRound(D, E, A, B, C, F1, K1, eData[12], h, block, z + 12);
    B, D := SubRound(C, D, E, A, B, F1, K1, eData[13], h, block, z + 13);
    A, C := SubRound(B, C, D, E, A, F1, K1, eData[14], h, block, z + 14);
    E, B := SubRound(A, B, C, D, E, F1, K1, eData[15], h, block, z + 15);
    w := Expand(eData, 16, block);
    D, A := SubRound(E, A, B, C, D, F1, K1, w, h, block, z + 16);
    w := Expand(eData, 17, block);
    C, E := SubRound(D, E, A, B, C, F1, K1, w, h, block, z + 17);
    w := Expand(eData, 18, block);
    B, D := SubRound(C, D, E, A, B, F1, K1, w, h, block, z + 18);
    w := Expand(eData, 19, block);
    A, C := SubRound(B, C, D, E, A, F1, K1, w, h, block, z + 19);
  }

  method Rounds20to29(eData: array<word>, a: word, b: word, c: word, d: word, e: word, ghost h: Digest, ghost block: seq<word>)
    returns (A: word, B: word, C: word, D: word, E: word)
    requires |block| == 16 && Circular(eData[..], block, 20)
    requires Rounds(h, block, 20) == Digest(a, b, c, d, e)
    modifies eData
    ensures Circular(eData[..], block, 30)
    ensures Rounds(h, block, 30) == Digest(A, B, C, D, E)
  {
    hide Rounds, W, Circular;
    A, B, C, D, E := a, b, c, d, e;
    ghost var z := 0;  // z + t rather than a literal t, which the verifier would unroll
    var w: word;

    w := Expand(eData, 20, block);
    E, B := SubRound(A, B, C, D, E, F2, K2, w, h, block, z + 20);
    w := Expand(eData, 21, block);
    D, A := SubRound(E, A, B, C, D, F2, K2, w, h, block, z + 21);
    w := Expand(eData, 22, block);
    C, E := SubRound(D, E, A, B, C, F2, K2, w, h, block, z + 22);
    w := Expand(eData, 23, block);
    B, D := SubRound(C, D, E, A, B, F2, K2, w, h, block, z + 23);
    w := Expand(eData, 24, block);
    A, C := SubRound(B, C, D, E, A, F2, K2, w, h, block, z + 24);
    w := Expand(eData, 25, block);
    E, B := SubRound(A, B, C, D, E, F2, K2, w, h, block, z + 25);
    w := Expand(eData, 26, block);
    D, A := SubRound(E, A, B, C, D, F2, K2, w, h, block, z + 26);
    w := Expand(eData, 27, block);
    C, E := SubRound(D, E, A, B, C, F2, K2, w, h, block, z + 27);
    w := Expand(eData, 28, block);
    B, D := SubRound(C, D, E, A, B, F2, K2, w, h, block, z + 28);
    w := Expand(eData, 29, block);
    A, C := SubRound(B, C, D, E, A, F2, K2, w, h, block, z + 29);
  }

  method Rounds30to39(eData: array<word>, a: word, b: word, c: word, d: word, e: word, ghost h: Digest, ghost block: seq<word>)
    returns (A: word, B: word, C: word, D: word, E: word)
    requires |block| == 16 && Circular(eData[..], block, 30)
    requires Rounds(h, block, 30) == Digest(a, b, c, d, e)
    modifies eData
    ensures Circular(eData[..], block, 40)
    ensures Rounds(h, block, 40) == Digest(A, B, C, D, E)
  {
    hide Rounds, W, Circular;
    A, B, C, D, E := a, b, c, d, e;
    ghost var z := 0;  // z + t rather than a literal t, which the verifier would unroll
    var w: word;

    w := Expand(eData, 30, block);
    E, B := SubRound(A, B, C, D, E, F2, K2, w, h, block, z + 30);
    w := Expand(eData, 31, block);
    D, A := SubRound(E, A, B, C, D, F2, K2, w, h, block, z + 31);
    w := Expand(eData, 32, block);
    C, E := SubRound(D, E, A, B, C, F2, K2, w, h, block, z + 32);
    w := Expand(eData, 33, block);
    B, D := SubRound(C, D, E, A, B, F2, K2, w, h, block, z + 33);
    w := Expand(eData, 34, block);
    A, C := SubRound(B, C, D, E, A, F2, K2, w, h, block, z + 34);
    w := Expand(eData, 35, block);
    E, B := SubRound(A, B, C, D, E, F2, K2, w, h, block, z + 35);
    w := Expand(eData, 36, block);
    D, A := SubRound(E, A, B, C, D, F2, K2, w, h, block, z + 36);
    w := Expand(eData, 37, block);
    C, E := SubRound(D, E, A, B, C, F2, K2, w, h, block, z + 37);
    w := Expand(eData, 38, block);
    B, D := SubRound(C, D, E, A, B, F2, K2, w, h, block, z + 38);
    w := Expand(eData, 39, block);
    A, C := SubRound(B, C, D, E, A, F2, K2, w, h, block, z + 39);
  }

  method Rounds40to49(eData: array<word>, a: word, b: word, c: word, d: word, e: word, ghost h: Digest, ghost block: seq<word>)
    returns (A: word, B: word, C: word, D: word, E: word)
    requires |block| == 16 && Circular(eData[..], block, 40)
    requires Rounds(h, block, 40) == Digest(a, b, c, d, e)
    modifies eData
    ensures Circular(eData[..], block, 50)
    ensures Rounds(h, block, 50) == Digest(A, B, C, D, E)
  {
    hide Rounds, W, Circular;
    A, B, C, D, E := a, b, c, d, e;
    ghost var z := 0;  // z + t rather than a literal t, which the verifier would unroll
    var w: word;

    w := Expand(eData, 40, block);
    E, B := SubRound(A, B, C, D, E, F3, K3, w, h, block, z + 40);
    w := Expand(eData, 41, block);
    D, A := SubRound(E, A, B, C, D, F3, K3, w, h, block, z + 41);
    w := Expand(eData, 42, block);
    C, E := SubRound(D, E, A, B, C, F3, K3, w, h, block, z + 42);
    w := Expand(eData, 43, block);
    B, D := SubRound(C, D, E, A, B, F3, K3, w, h, block, z + 43);
    w := Expand(eData, 44, block);
    A, C := SubRound(B, C, D, E, A, F3, K3, w, h, block, z + 44);
    w := Expand(eData, 45, block);
    E, B := SubRound(A, B, C, D, E, F3, K3, w, h, block, z + 45);
    w := Expand(eData, 46, block);
    D, A := SubRound(E, A, B, C, D, F3, K3, w, h, block, z + 46);
    w := Expand(eData, 47, block);
    C, E := SubRound(D, E, A, B, C, F3, K3, w, h, block, z + 47);
    w := Expand(eData, 48, block);
    B, D := SubRound(C, D, E, A, B, F3, K3, w, h, block, z + 48);
    w := Expand(eData, 49, block);
    A, C := SubRound(B, C, D, E, A, F3, K3, w, h, block, z + 49);
  }

  method Rounds50to59(eData: array<word>, a: word, b: word, c: word, d: word, e: word, ghost h: Digest, ghost block: seq<word>)
    returns (A: word, B: word, C: word, D: word, E: word)
    requires |block| == 16 && Circular(eData[..], block, 50)
    requires Rounds(h, block, 50) == Digest(a, b, c, d, e)
    modifies eData
    ensures Circular(eData[..], block, 60)
    ensures Rounds(h, block, 60) == Digest(A, B, C, D, E)
  {
    hide Rounds, W, Circular;
    A, B, C, D, E := a, b, c, d, e;
    ghost var z := 0;  // z + t rather than a literal t, which the verifier would unroll
    var w: word;

    w := Expand(eData, 50, block);
    E, B := SubRound(A, B, C, D, E, F3, K3, w, h, block, z + 50);
    w := Expand(eData, 51, block);
    D, A := SubRound(E, A, B, C, D, F3, K3, w, h, block, z + 51);
    w := Expand(eData, 52, block);
    C, E := SubRound(D, E, A, B, C, F3, K3, w, h, block, z + 52);
    w := Expand(eData, 53, block);
    B, D := SubRound(C, D, E, A, B, F3, K3, w, h, block, z + 53);
    w := Expand(eData, 54, block);
    A, C := SubRound(B, C, D, E, A, F3, K3, w, h, block, z + 54);
    w := Expand(eData, 55, block);
    E, B := SubRound(A, B, C, D, E, F3, K3, w, h, block, z + 55);
    w := Expand(eData, 56, block);
    D, A := SubRound(E, A, B, C, D, F3, K3, w, h, block, z + 56);
    w := Expand(eData, 57, block);
    C, E := SubRound(D, E, A, B, C, F3, K3, w, h, block, z + 57);
    w := Expand(eData, 58, block);
    B, D := SubRound(C, D, E, A, B, F3, K3, w, h, block, z + 58);
    w := Expand(eData, 59, block);
    A, C := SubRound(B, C, D, E, A, F3, K3, w, h, block, z + 59);
  }

  method Rounds60to69(eData: array<word>, a: word, b: word, c: word, d: word, e: word, ghost h: Digest, ghost block: seq<word>)
    returns (A: word, B: word, C: word, D: word, E: word)
    requires |block| == 16 && Circular(eData[..], block, 60)
    requires Rounds(h, block, 60) == Digest(a, b, c, d, e)
    modifies eData
    ensures Circular(eData[..], block, 70)
    ensures Rounds(h, block, 70) == Digest(A, B, C, D, E)
  {
    hide Rounds, W, Circular;
    A, B, C, D, E := a, b, c, d, e;
    ghost var z := 0;  // z + t rather than a literal t, which the verifier would unroll
    var w: word;

    w := Expand(eData, 60, block);
    E, B := SubRound(A, B, C, D, E, F4, K4, w, h, block, z + 60);
    w := Expand(eData, 61, block);
    D, A := SubRound(E, A, B, C, D, F4, K4, w, h, block, z + 61);
    w := Expand(eData, 62, block);
    C, E := SubRound(D, E, A, B, C, F4, K4, w, h, block, z + 62);
    w := Expand(eData, 63, block);
    B, D := SubRound(C, D, E, A, B, F4, K4, w, h, block, z + 63);
    w := Expand(eData, 64, block);
    A, C := SubRound(B, C, D, E, A, F4, K4, w, h, block, z + 64);
    w := Expand(eData, 65, block);
    E, B := SubRound(A, B, C, D, E, F4, K4, w, h, block, z + 65);
    w := Expand(eData, 66, block);
    D, A := SubRound(E, A, B, C, D, F4, K4, w, h, block, z + 66);
    w := Expand(eData, 67, block);
    C, E := SubRound(D, E, A, B, C, F4, K4, w, h, block, z + 67);
    w := Expand(eData, 68, block);
    B, D := SubRound(C, D, E, A, B, F4, K4, w, h, block, z + 68);
    w := Expand(eData, 69, block);
    A, C := SubRound(B, C, D, E, A, F4, K4, w, h, block, z + 69);
  }

  method Rounds70to79(eData: array<word>, a: word, b: word, c: word, d: word, e: word, ghost h: Digest, ghost block: seq<word>)
    returns (A: word, B: word, C: word, D: word, E: word)
    requires |block| == 16 && Circular(eData[..], block, 70)
    requires Rounds(h, block, 70) == Digest(a, b, c, d, e)
    modifies eData
    ensures Circular(eData[..], block, 80)
    ensures Rounds(h, block, 80) == Digest(A, B, C, D, E)
  {
    hide Rounds, W, Circular;
    A, B, C, D, E := a, b, c, d, e;
    ghost var z := 0;  // z + t rather than a literal t, which the verifier would unroll
    var w: word;

    w := Expand(eData, 70, block);
    E, B := SubRound(A, B, C, D, E, F4, K4, w, h, block, z + 70);
    w := Expand(eData, 71, block);
    D, A := SubRound(E, A, B, C, D, F4, K4, w, h, block, z + 71);
    w := Expand(eData, 72, block);
    C, E := SubRound(D, E, A, B, C, F4, K4, w, h, block, z + 72);
    w := Expand(eData, 73, block);
    B, D := SubRound(C, D, E, A, B, F4, K4, w, h, block, z + 73);
    w := Expand(eData, 74, block);
    A, C := SubRound(B, C, D, E, A, F4, K4, w, h, block, z + 74);
    w := Expand(eData, 75, block);
    E, B := SubRound(A, B, C, D, E, F4, K4, w, h, block, z + 75);
    w := Expand(eData, 76, block);
    D, A := SubRound(E, A, B, C, D, F4, K4, w, h, block, z + 76);
    w := Expand(eData, 77, block);
    C, E := SubRound(D, E, A, B, C, F4, K4, w, h, block, z + 77);
    w := Expand(eData, 78, block);
    B, D := SubRound(C, D, E, A, B, F4, K4, w, h, block, z + 78);
    w := Expand(eData, 79, block);
    A, C := SubRound(B, C, D, E, A, F4, K4, w, h, block, z + 79);
  }

  /** The end of the transform: the block's five words are added to the state. */
  method AddInto(digest: array<word>, A: word, B: word, C: word, D: word, E: word)
    requires digest.Length == 5
    modifies digest
    ensures Value(digest[..]) == Plus(old(Value(digest[..])), Digest(A, B, C, D, E))
  {
    hide Add;
    digest[0] := Add(digest[0], A);
    digest[1] := Add(digest[1], B);
    digest[2] := Add(digest[2], C);
    digest[3] := Add(digest[3], D);
    digest[4] := Add(digest[4], E);
  }

  /** SHSTransform */
  method SHSTransform(digest: array<word>, data: array<word>)
    requires digest.Length == 5 && data.Length == 16 && digest != data
    modifies digest
    ensures Value(digest[..]) == Compress(old(Value(digest[..])), data[..])
  {
    hide Rounds, W, Circular, Plus;
    ghost var h, block := Value(digest[..]), data[..];
    var eData := new word[16](i requires 0 <= i < 16 reads data => data[i]);
    assert eData[..] == block;
    Begin(h, block);
    var A, B, C, D, E := Rounds0to9(eData, digest[0], digest[1], digest[2], digest[3], digest[4], h, block);
    A, B, C, D, E := Rounds10to19(eData, A, B, C, D, E, h, block);
    A, B, C, D, E := Rounds20to29(eData, A, B, C, D, E, h, block);
    A, B, C, D, E := Rounds30to39(eData, A, B, C, D, E, h, block);
    A, B, C, D, E := Rounds40to49(eData, A, B, C, D, E, h, block);
    A, B, C, D, E := Rounds50to59(eData, A, B, C, D, E, h, block);
    A, B, C, D, E := Rounds60to69(eData, A, B, C, D, E, h, block);
    A, B, C, D, E := Rounds70to79(eData, A, B, C, D, E, h, block);
    AddInto(digest, A, B, C, D, E);
  }
}
