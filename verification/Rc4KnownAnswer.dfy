/**
 * A published key stream: under the key "Key" RC4 starts with EB 9F 77 81.  The 256 swaps of the
 * key schedule are followed by three tables, which are checked row by row.
 */
module Rc4KnownAnswer {
  import opened Bytes
  import opened Rc4

  const KEY: seq<U8> := [75, 101, 121]  // "Key"

  // ----- the tables

  function IndexRow(r: nat): (row: seq<U8>)
    ensures |row| == 16
  {
    if r == 0 then [75, 177, 44, 122, 227, 97, 178, 30, 159, 243, 98, 230, 61, 175, 54, 144]
    else if r == 1 then [5, 143, 236, 100, 241, 81, 204, 92, 191, 61, 208, 54, 183, 77, 159, 35]
    else if r == 2 then [188, 40, 175, 71, 182, 64, 223, 81, 215, 121, 238, 126, 249, 113, 4, 172]
    else if r == 3 then [39, 189, 104, 230, 127, 45, 147, 47, 224, 100, 3, 183, 62, 188, 113, 251]
    else if r == 4 then [133, 63, 204, 116, 49, 193, 108, 4, 151, 69, 8, 83, 4, 154, 51, 231]
    else if r == 5 then [176, 34, 217, 82, 241, 171, 122, 28, 217, 171, 80, 16, 160, 72, 11, 227]
    else if r == 6 then [142, 248, 123, 41, 199, 165, 86, 34, 205, 129, 80, 52, 197, 151, 126, 56]
    else if r == 7 then [13, 194, 127, 87, 19, 211, 174, 158, 97, 239, 190, 19, 244, 234, 163, 122]
    else if r == 8 then [115, 39, 14, 10, 217, 99, 98, 52, 33, 35, 248, 232, 237, 197, 138, 20]
    else if r == 9 then [110, 100, 111, 213, 206, 220, 189, 143, 160, 132, 6, 26, 1, 3, 243, 69]
    else if r == 10 then [66, 92, 73, 28, 57, 233, 244, 20, 7, 21, 56, 220, 112, 150, 87, 222]
    else if r == 11 then [167, 243, 94, 138, 137, 163, 64, 198, 227, 21, 26, 58, 204, 173, 104, 249]
    else if r == 12 then [4, 174, 99, 113, 154, 160, 38, 196, 5, 25, 72, 140, 240, 135, 148, 174]
    else if r == 13 then [45, 119, 148, 110, 187, 33, 92, 246, 25, 2, 85, 123, 57, 143, 252, 135]
    else if r == 14 then [56, 100, 171, 220, 11, 85, 1, 155, 139, 105, 49, 129, 12, 227, 114, 20]
    else [120, 49, 156, 232, 243, 97, 205, 41, 44, 143, 238, 166, 19, 117, 236, 54]
  }

  /** The index j after swap n. */
  function Index(n: nat): U8 {
    IndexRow(n / 16)[n % 16]
  }

  function ValueRow(r: nat): (row: seq<U8>)
    ensures |row| == 16
  {
    if r == 0 then [0, 1, 2, 3, 4, 5, 6, 7, 8, 9, 10, 11, 12, 13, 14, 15]
    else if r == 1 then [16, 17, 18, 19, 20, 21, 22, 23, 24, 25, 26, 27, 28, 29, 7, 31]
    else if r == 2 then [32, 33, 34, 31, 36, 37, 38, 39, 33, 41, 42, 43, 2, 45, 46, 47]
    else if r == 3 then [48, 49, 50, 51, 52, 53, 27, 55, 56, 57, 58, 59, 60, 25, 60, 63]
    else if r == 4 then [37, 65, 66, 67, 68, 69, 70, 31, 72, 73, 74, 0, 76, 29, 78, 79]
    else if r == 5 then [80, 39, 82, 0, 84, 85, 86, 87, 88, 89, 90, 91, 23, 93, 94, 95]
    else if r == 6 then [96, 5, 10, 99, 57, 101, 102, 103, 50, 105, 106, 107, 70, 109, 110, 111]
    else if r == 7 then [112, 60, 114, 115, 67, 117, 118, 119, 120, 41, 86, 10, 124, 125, 110, 114]
    else if r == 8 then [128, 105, 130, 131, 132, 37, 134, 135, 136, 137, 138, 139, 140, 141, 96, 17]
    else if r == 9 then [15, 145, 146, 27, 148, 149, 150, 109, 152, 153, 29, 155, 156, 157, 119, 7]
    else if r == 10 then [152, 161, 162, 110, 164, 101, 166, 167, 168, 169, 170, 89, 47, 173, 118, 34]
    else if r == 11 then [80, 1, 6, 179, 180, 181, 36, 59, 184, 185, 186, 187, 25, 150, 86, 24]
    else if r == 12 then [192, 69, 60, 195, 196, 141, 59, 57, 200, 201, 202, 203, 25, 50, 148, 207]
    else if r == 13 then [26, 209, 210, 117, 212, 27, 214, 33, 216, 132, 218, 219, 89, 221, 34, 38]
    else if r == 14 then [56, 225, 226, 184, 228, 229, 51, 79, 139, 101, 125, 235, 18, 140, 42, 41]
    else [25, 84, 242, 1, 166, 245, 33, 247, 138, 24, 250, 63, 34, 253, 254, 255]
  }

  /** What stands at place n when its swap comes. */
  function Value(n: nat): U8 {
    ValueRow(n / 16)[n % 16]
  }

  function WriterRow(r: nat): (row: seq<U8>)
    ensures |row| == 16
  {
    if r == 0 then [0, 0, 0, 0, 0, 0, 0, 0, 0, 0, 0, 0, 0, 0, 0, 0]
    else if r == 1 then [0, 0, 0, 0, 0, 0, 0, 0, 0, 0, 0, 0, 0, 0, 8, 0]
    else if r == 2 then [0, 0, 0, 32, 0, 0, 0, 0, 34, 0, 0, 0, 3, 0, 0, 0]
    else if r == 3 then [0, 0, 0, 0, 0, 0, 28, 0, 0, 0, 0, 0, 0, 26, 61, 0]
    else if r == 4 then [38, 0, 0, 0, 0, 0, 0, 36, 0, 0, 0, 1, 0, 30, 0, 0]
    else if r == 5 then [0, 40, 0, 76, 0, 0, 0, 0, 0, 0, 0, 0, 24, 0, 0, 0]
    else if r == 6 then [0, 6, 11, 0, 58, 0, 0, 0, 51, 0, 0, 0, 71, 0, 0, 0]
    else if r == 7 then [0, 63, 0, 0, 68, 0, 0, 0, 0, 42, 87, 99, 0, 0, 111, 115]
    else if r == 8 then [0, 106, 0, 0, 0, 65, 0, 0, 0, 0, 0, 0, 0, 0, 97, 18]
    else if r == 9 then [16, 0, 0, 55, 0, 0, 0, 110, 0, 0, 78, 0, 0, 0, 120, 31]
    else if r == 10 then [153, 0, 0, 127, 0, 102, 0, 0, 0, 0, 0, 90, 48, 0, 119, 35]
    else if r == 11 then [81, 2, 7, 0, 0, 0, 37, 60, 0, 0, 0, 0, 62, 151, 123, 25]
    else if r == 12 then [0, 70, 114, 0, 0, 142, 184, 101, 0, 0, 0, 0, 189, 105, 149, 0]
    else if r == 13 then [27, 0, 0, 118, 0, 148, 0, 41, 0, 133, 0, 0, 172, 0, 176, 39]
    else if r == 14 then [57, 0, 0, 185, 0, 0, 52, 80, 140, 166, 126, 0, 19, 141, 43, 122]
    else [205, 85, 0, 178, 167, 0, 216, 0, 139, 192, 0, 64, 223, 0, 0, 0]
  }

  /** One more than the last earlier swap that wrote to place n; 0 if there is none. */
  function Writer(n: nat): U8 {
    WriterRow(n / 16)[n % 16]
  }

  /** No swap before n that wrote to place n is later than the table says. */
  predicate Covered(n: nat) {
    Index(n) > n ==> Writer(Index(n)) > n
  }

  /** So place n holds what that swap wrote, or its own number. */
  predicate Written(n: nat) {
    if Writer(n) == 0 then Value(n) == n else Writer(n) <= n && Index(Writer(n) - 1) == n && Value(n) == Value(Writer(n) - 1)
  }

  /** And the index moves on by that and a byte of the key. */
  predicate Summed(n: nat) {
    Index(n) == ((if n == 0 then 0 else Index(n - 1)) + Value(n) + KEY[n % 3]) % 256
  }

  lemma Covered0() ensures forall n: nat :: n < 16 ==> Covered(n) { }
  lemma Covered1() ensures forall n: nat :: 16 <= n < 32 ==> Covered(n) { }
  lemma Covered2() ensures forall n: nat :: 32 <= n < 48 ==> Covered(n) { }
  lemma Covered3() ensures forall n: nat :: 48 <= n < 64 ==> Covered(n) { }
  lemma Covered4() ensures forall n: nat :: 64 <= n < 80 ==> Covered(n) { }
  lemma Covered5() ensures forall n: nat :: 80 <= n < 96 ==> Covered(n) { }
  lemma Covered6() ensures forall n: nat :: 96 <= n < 112 ==> Covered(n) { }
  lemma Covered7() ensures forall n: nat :: 112 <= n < 128 ==> Covered(n) { }
  lemma Covered8() ensures forall n: nat :: 128 <= n < 144 ==> Covered(n) { }
  lemma Covered9() ensures forall n: nat :: 144 <= n < 160 ==> Covered(n) { }
  lemma Covered10() ensures forall n: nat :: 160 <= n < 176 ==> Covered(n) { }
  lemma Covered11() ensures forall n: nat :: 176 <= n < 192 ==> Covered(n) { }
  lemma Covered12() ensures forall n: nat :: 192 <= n < 208 ==> Covered(n) { }
  lemma Covered13() ensures forall n: nat :: 208 <= n < 224 ==> Covered(n) { }
  lemma Covered14() ensures forall n: nat :: 224 <= n < 240 ==> Covered(n) { }
  lemma Covered15() ensures forall n: nat :: 240 <= n < 256 ==> Covered(n) { }

  lemma Written0() ensures forall n: nat :: n < 8 ==> Written(n) { }
  lemma Written1() ensures forall n: nat :: 8 <= n < 16 ==> Written(n) { }
  lemma Written2() ensures forall n: nat :: 16 <= n < 24 ==> Written(n) { }
  lemma Written3() ensures forall n: nat :: 24 <= n < 32 ==> Written(n) { }
  lemma Written4() ensures forall n: nat :: 32 <= n < 40 ==> Written(n) { }
  lemma Written5() ensures forall n: nat :: 40 <= n < 48 ==> Written(n) { }
  lemma Written6() ensures forall n: nat :: 48 <= n < 56 ==> Written(n) { }
  lemma Written7() ensures forall n: nat :: 56 <= n < 64 ==> Written(n) { }
  lemma Written8() ensures forall n: nat :: 64 <= n < 72 ==> Written(n) { }
  lemma Written9() ensures forall n: nat :: 72 <= n < 80 ==> Written(n) { }
  lemma Written10() ensures forall n: nat :: 80 <= n < 88 ==> Written(n) { }
  lemma Written11() ensures forall n: nat :: 88 <= n < 96 ==> Written(n) { }
  lemma Written12() ensures forall n: nat :: 96 <= n < 104 ==> Written(n) { }
  lemma Written13() ensures forall n: nat :: 104 <= n < 112 ==> Written(n) { }
  lemma Written14() ensures forall n: nat :: 112 <= n < 120 ==> Written(n) { }
  lemma Written15() ensures forall n: nat :: 120 <= n < 128 ==> Written(n) { }
  lemma Written16() ensures forall n: nat :: 128 <= n < 136 ==> Written(n) { }
  lemma Written17() ensures forall n: nat :: 136 <= n < 144 ==> Written(n) { }
  lemma Written18() ensures forall n: nat :: 144 <= n < 152 ==> Written(n) { }
  lemma Written19() ensures forall n: nat :: 152 <= n < 160 ==> Written(n) { }
  lemma Written20() ensures forall n: nat :: 160 <= n < 168 ==> Written(n) { }
  lemma Written21() ensures forall n: nat :: 168 <= n < 176 ==> Written(n) { }
  lemma Written22() ensures forall n: nat :: 176 <= n < 184 ==> Written(n) { }
  lemma Written23() ensures forall n: nat :: 184 <= n < 192 ==> Written(n) { }
  lemma Written24() ensures forall n: nat :: 192 <= n < 200 ==> Written(n) { }
  lemma Written25() ensures forall n: nat :: 200 <= n < 208 ==> Written(n) { }
  lemma Written26() ensures forall n: nat :: 208 <= n < 216 ==> Written(n) { }
  lemma Written27() ensures forall n: nat :: 216 <= n < 224 ==> Written(n) { }
  lemma Written28() ensures forall n: nat :: 224 <= n < 232 ==> Written(n) { }
  lemma Written29() ensures forall n: nat :: 232 <= n < 240 ==> Written(n) { }
  lemma Written30() ensures forall n: nat :: 240 <= n < 248 ==> Written(n) { }
  lemma Written31() ensures forall n: nat :: 248 <= n < 256 ==> Written(n) { }

  lemma Summed0() ensures forall n: nat :: n < 8 ==> Summed(n) { }
  lemma Summed1() ensures forall n: nat :: 8 <= n < 16 ==> Summed(n) { }
  lemma Summed2() ensures forall n: nat :: 16 <= n < 24 ==> Summed(n) { }
  lemma Summed3() ensures forall n: nat :: 24 <= n < 32 ==> Summed(n) { }
  lemma Summed4() ensures forall n: nat :: 32 <= n < 40 ==> Summed(n) { }
  lemma Summed5() ensures forall n: nat :: 40 <= n < 48 ==> Summed(n) { }
  lemma Summed6() ensures forall n: nat :: 48 <= n < 56 ==> Summed(n) { }
  lemma Summed7() ensures forall n: nat :: 56 <= n < 64 ==> Summed(n) { }
  lemma Summed8() ensures forall n: nat :: 64 <= n < 72 ==> Summed(n) { }
  lemma Summed9() ensures forall n: nat :: 72 <= n < 80 ==> Summed(n) { }
  lemma Summed10() ensures forall n: nat :: 80 <= n < 88 ==> Summed(n) { }
  lemma Summed11() ensures forall n: nat :: 88 <= n < 96 ==> Summed(n) { }
  lemma Summed12() ensures forall n: nat :: 96 <= n < 104 ==> Summed(n) { }
  lemma Summed13() ensures forall n: nat :: 104 <= n < 112 ==> Summed(n) { }
  lemma Summed14() ensures forall n: nat :: 112 <= n < 120 ==> Summed(n) { }
  lemma Summed15() ensures forall n: nat :: 120 <= n < 128 ==> Summed(n) { }
  lemma Summed16() ensures forall n: nat :: 128 <= n < 136 ==> Summed(n) { }
  lemma Summed17() ensures forall n: nat :: 136 <= n < 144 ==> Summed(n) { }
  lemma Summed18() ensures forall n: nat :: 144 <= n < 152 ==> Summed(n) { }
  lemma Summed19() ensures forall n: nat :: 152 <= n < 160 ==> Summed(n) { }
  lemma Summed20() ensures forall n: nat :: 160 <= n < 168 ==> Summed(n) { }
  lemma Summed21() ensures forall n: nat :: 168 <= n < 176 ==> Summed(n) { }
  lemma Summed22() ensures forall n: nat :: 176 <= n < 184 ==> Summed(n) { }
  lemma Summed23() ensures forall n: nat :: 184 <= n < 192 ==> Summed(n) { }
  lemma Summed24() ensures forall n: nat :: 192 <= n < 200 ==> Summed(n) { }
  lemma Summed25() ensures forall n: nat :: 200 <= n < 208 ==> Summed(n) { }
  lemma Summed26() ensures forall n: nat :: 208 <= n < 216 ==> Summed(n) { }
  lemma Summed27() ensures forall n: nat :: 216 <= n < 224 ==> Summed(n) { }
  lemma Summed28() ensures forall n: nat :: 224 <= n < 232 ==> Summed(n) { }
  lemma Summed29() ensures forall n: nat :: 232 <= n < 240 ==> Summed(n) { }
  lemma Summed30() ensures forall n: nat :: 240 <= n < 248 ==> Summed(n) { }
  lemma Summed31() ensures forall n: nat :: 248 <= n < 256 ==> Summed(n) { }

  lemma AllCovered(n: nat)
    requires n < 256
    ensures Covered(n)
  {
    hide Covered;
    Covered0();
    Covered1();
    Covered2();
    Covered3();
    Covered4();
    Covered5();
    Covered6();
    Covered7();
    Covered8();
    Covered9();
    Covered10();
    Covered11();
    Covered12();
    Covered13();
    Covered14();
    Covered15();
  }

  lemma AllWritten(n: nat)
    requires n < 256
    ensures Written(n)
  {
    hide Written;
    Written0();
    Written1();
    Written2();
    Written3();
    Written4();
    Written5();
    Written6();
    Written7();
    Written8();
    Written9();
    Written10();
    Written11();
    Written12();
    Written13();
    Written14();
    Written15();
    Written16();
    Written17();
    Written18();
    Written19();
    Written20();
    Written21();
    Written22();
    Written23();
    Written24();
    Written25();
    Written26();
    Written27();
    Written28();
    Written29();
    Written30();
    Written31();
  }

  lemma AllSummed(n: nat)
    requires n < 256
    ensures Summed(n)
  {
    hide Summed;
    Summed0();
    Summed1();
    Summed2();
    Summed3();
    Summed4();
    Summed5();
    Summed6();
    Summed7();
    Summed8();
    Summed9();
    Summed10();
    Summed11();
    Summed12();
    Summed13();
    Summed14();
    Summed15();
    Summed16();
    Summed17();
    Summed18();
    Summed19();
    Summed20();
    Summed21();
    Summed22();
    Summed23();
    Summed24();
    Summed25();
    Summed26();
    Summed27();
    Summed28();
    Summed29();
    Summed30();
    Summed31();
  }

  // ----- the key schedule follows the tables

  /** Place p, not yet swapped itself, before swap n. */
  function Held(n: nat, p: nat): nat {
    if n == 0 then p else if Index(n - 1) == p then Value(n - 1) else Held(n - 1, p)
  }

  lemma {:induction false} HeldSince(p: nat, a: nat, n: nat)
    requires a <= n && forall t: nat :: a <= t < n ==> Index(t) != p
    ensures Held(n, p) == Held(a, p)
    decreases n
  {
    hide Index, Value;
    if a < n {
      HeldSince(p, a, n - 1);
    }
  }

  lemma HeldIsValue(n: nat)
    requires n < 256
    ensures Held(n, n) == Value(n)
  {
    AllWritten(n);
    var k := Writer(n);
    forall t: nat | k <= t < n ensures Index(t) != n {
      AllCovered(t);
    }
    hide Index, Value, Writer;
    HeldSince(n, k, n);
  }

  lemma {:induction false} WrapThree(i: nat)
    ensures Wrap(i, 3) == i % 3
    decreases i
  {
    if i >= 3 {
      WrapThree(i - 3);
    }
  }

  /** The permutation before swap n. */
  function Perm(n: nat): (m: seq<U8>)
    requires n <= 256
    ensures |m| == 256
  {
    Schedule(KEY, n).0
  }

  /** One swap, once it is known what stands at its place. */
  lemma SwapOf(n: nat, j: U8, v: U8)
    requires n < 256 && Schedule(KEY, n).1 == j && Perm(n)[n] == v
    ensures Schedule(KEY, n + 1).1 == (j + v + KEY[n % 3]) % 256
    ensures forall p :: n < p < 256 ==> Perm(n + 1)[p] == if p == Schedule(KEY, n + 1).1 then v else Perm(n)[p]
  {
    hide Permutation, Wrap;
    WrapThree(n);
  }

  lemma {:induction false} Follows(n: nat)
    requires n <= 256
    ensures Schedule(KEY, n).1 == if n == 0 then 0 else Index(n - 1)
    ensures forall p :: n <= p < 256 ==> Perm(n)[p] == Held(n, p)
    decreases n
  {
    hide Index, Value, Permutation;
    if n > 0 {
      Follows(n - 1);
      HeldIsValue(n - 1);
      AllSummed(n - 1);
      SwapOf(n - 1, if n == 1 then 0 else Index(n - 2), Value(n - 1));
      hide Perm, Schedule;
    }
  }

  /** Swap n exchanges place n and the place of the index. */
  lemma Swapped(n: nat)
    requires n < 256
    ensures Perm(n)[n] == Value(n)
    ensures var m, j := Perm(n), Index(n); Perm(n + 1) == m[n := m[j]][j := m[n]]
  {
    Follows(n);
    Follows(n + 1);
    HeldIsValue(n);
    hide Index, Value, Permutation, Held;
  }

  /** Swap t has nothing to do with place p. */
  predicate Untouched(p: nat, t: nat) {
    t != p && Index(t) != p
  }

  /** A place that no swap touches keeps what it holds. */
  lemma {:induction false} Stays(p: nat, a: nat, b: nat)
    requires p < 256 && a <= b <= 256 && forall t: nat :: a <= t < b ==> Untouched(p, t)
    ensures Perm(b)[p] == Perm(a)[p]
    decreases b
  {
    hide Index, Value, Perm;
    if a < b {
      assert Untouched(p, b - 1);
      Swapped(b - 1);
      Stays(p, a, b - 1);
    }
  }

  lemma InitialPerm()
    ensures Initial(KEY).x == 0 && Initial(KEY).y == 0 && Initial(KEY).m == Perm(256)
  {
    hide Schedule;
  }

  lemma Start(p: nat)
    requires p < 256
    ensures Perm(0)[p] == p
  {
  }

  // ----- the places that are read

  lemma Free1_231() ensures forall t: nat :: 231 <= t < 240 ==> Untouched(1, t) { }
  lemma Free1_240() ensures forall t: nat :: 240 <= t < 256 ==> Untouched(1, t) { }

  lemma Place1()
    ensures Perm(256)[1] == 51
  {
    hide Perm, Untouched;
    Swapped(230);
    Free1_231();
    Free1_240();
    Stays(1, 231, 256);
  }

  lemma Free2_218() ensures forall t: nat :: 218 <= t < 240 ==> Untouched(2, t) { }
  lemma Free2_240() ensures forall t: nat :: 240 <= t < 256 ==> Untouched(2, t) { }

  lemma Place2()
    ensures Perm(256)[2] == 132
  {
    hide Perm, Untouched;
    Swapped(217);
    Free2_218();
    Free2_240();
    Stays(2, 218, 256);
  }

  lemma Free3_158() ensures forall t: nat :: 158 <= t < 192 ==> Untouched(3, t) { }
  lemma Free3_192() ensures forall t: nat :: 192 <= t < 240 ==> Untouched(3, t) { }
  lemma Free3_240() ensures forall t: nat :: 240 <= t < 256 ==> Untouched(3, t) { }

  lemma Place3()
    ensures Perm(256)[3] == 157
  {
    hide Perm, Untouched;
    Swapped(157);
    Free3_158();
    Free3_192();
    Free3_240();
    Stays(3, 158, 256);
  }

  lemma Free4_193() ensures forall t: nat :: 193 <= t < 240 ==> Untouched(4, t) { }
  lemma Free4_240() ensures forall t: nat :: 240 <= t < 256 ==> Untouched(4, t) { }

  lemma Place4()
    ensures Perm(256)[4] == 192
  {
    hide Perm, Untouched;
    Swapped(192);
    Free4_193();
    Free4_240();
    Stays(4, 193, 256);
  }

  lemma Free20_240() ensures forall t: nat :: 240 <= t < 256 ==> Untouched(20, t) { }

  lemma Place20()
    ensures Perm(256)[20] == 41
  {
    hide Perm, Untouched;
    Swapped(239);
    Free20_240();
    Stays(20, 240, 256);
  }

  lemma Free51_79() ensures forall t: nat :: 79 <= t < 96 ==> Untouched(51, t) { }
  lemma Free51_96() ensures forall t: nat :: 96 <= t < 144 ==> Untouched(51, t) { }
  lemma Free51_144() ensures forall t: nat :: 144 <= t < 192 ==> Untouched(51, t) { }
  lemma Free51_192() ensures forall t: nat :: 192 <= t < 240 ==> Untouched(51, t) { }
  lemma Free51_240() ensures forall t: nat :: 240 <= t < 256 ==> Untouched(51, t) { }

  lemma Place51()
    ensures Perm(256)[51] == 78
  {
    hide Perm, Untouched;
    Swapped(78);
    Free51_79();
    Free51_96();
    Free51_144();
    Free51_192();
    Free51_240();
    Stays(51, 79, 256);
  }

  lemma Free159_0() ensures forall t: nat :: t < 8 ==> Untouched(159, t) { }
  lemma Free8_9() ensures forall t: nat :: 9 <= t < 48 ==> Untouched(8, t) { }
  lemma Free8_48() ensures forall t: nat :: 48 <= t < 74 ==> Untouched(8, t) { }
  lemma Free74_75() ensures forall t: nat :: 75 <= t < 96 ==> Untouched(74, t) { }
  lemma Free74_96() ensures forall t: nat :: 96 <= t < 144 ==> Untouched(74, t) { }
  lemma Free74_144() ensures forall t: nat :: 144 <= t < 192 ==> Untouched(74, t) { }
  lemma Free74_192() ensures forall t: nat :: 192 <= t < 240 ==> Untouched(74, t) { }
  lemma Free74_240() ensures forall t: nat :: 240 <= t < 256 ==> Untouched(74, t) { }

  lemma Place74()
    ensures Perm(256)[74] == 159
  {
    hide Perm, Untouched;
    Start(159);
    Free159_0();
    Stays(159, 0, 8);
    Swapped(8);
    Free8_9();
    Free8_48();
    Stays(8, 9, 74);
    Swapped(74);
    Free74_75();
    Free74_96();
    Free74_144();
    Free74_192();
    Free74_240();
    Stays(74, 75, 256);
  }

  lemma Free241_21() ensures forall t: nat :: 21 <= t < 48 ==> Untouched(241, t) { }
  lemma Free241_48() ensures forall t: nat :: 48 <= t < 84 ==> Untouched(241, t) { }
  lemma Free84_85() ensures forall t: nat :: 85 <= t < 96 ==> Untouched(84, t) { }
  lemma Free84_96() ensures forall t: nat :: 96 <= t < 144 ==> Untouched(84, t) { }
  lemma Free84_144() ensures forall t: nat :: 144 <= t < 192 ==> Untouched(84, t) { }
  lemma Free84_192() ensures forall t: nat :: 192 <= t < 240 ==> Untouched(84, t) { }
  lemma Free84_240() ensures forall t: nat :: 240 <= t < 256 ==> Untouched(84, t) { }

  lemma Place84()
    ensures Perm(256)[84] == 20
  {
    hide Perm, Untouched;
    Swapped(20);
    Free241_21();
    Free241_48();
    Stays(241, 21, 84);
    Swapped(84);
    Free84_85();
    Free84_96();
    Free84_144();
    Free84_192();
    Free84_240();
    Stays(84, 85, 256);
  }

  lemma Free129_236() ensures forall t: nat :: 236 <= t < 240 ==> Untouched(129, t) { }
  lemma Free129_240() ensures forall t: nat :: 240 <= t < 256 ==> Untouched(129, t) { }

  lemma Place129()
    ensures Perm(256)[129] == 235
  {
    hide Perm, Untouched;
    Swapped(235);
    Free129_236();
    Free129_240();
    Stays(129, 236, 256);
  }

  lemma Free243_159() ensures forall t: nat :: 159 <= t < 177 ==> Untouched(243, t) { }
  lemma Free177_178() ensures forall t: nat :: 178 <= t < 192 ==> Untouched(177, t) { }
  lemma Free177_192() ensures forall t: nat :: 192 <= t < 240 ==> Untouched(177, t) { }
  lemma Free177_240() ensures forall t: nat :: 240 <= t < 256 ==> Untouched(177, t) { }

  lemma Place177()
    ensures Perm(256)[177] == 119
  {
    hide Perm, Untouched;
    Swapped(158);
    Free243_159();
    Stays(243, 159, 177);
    Swapped(177);
    Free177_178();
    Free177_192();
    Free177_240();
    Stays(177, 178, 256);
  }

  lemma Free198_0() ensures forall t: nat :: t < 48 ==> Untouched(198, t) { }
  lemma Free198_48() ensures forall t: nat :: 48 <= t < 96 ==> Untouched(198, t) { }
  lemma Free198_96() ensures forall t: nat :: 96 <= t < 144 ==> Untouched(198, t) { }
  lemma Free198_144() ensures forall t: nat :: 144 <= t < 183 ==> Untouched(198, t) { }
  lemma Free183_184() ensures forall t: nat :: 184 <= t < 192 ==> Untouched(183, t) { }
  lemma Free183_192() ensures forall t: nat :: 192 <= t < 240 ==> Untouched(183, t) { }
  lemma Free183_240() ensures forall t: nat :: 240 <= t < 256 ==> Untouched(183, t) { }

  lemma Place183()
    ensures Perm(256)[183] == 198
  {
    hide Perm, Untouched;
    Start(198);
    Free198_0();
    Free198_48();
    Free198_96();
    Free198_144();
    Stays(198, 0, 183);
    Swapped(183);
    Free183_184();
    Free183_192();
    Free183_240();
    Stays(183, 184, 256);
  }

  lemma Free129_0() ensures forall t: nat :: t < 48 ==> Untouched(129, t) { }
  lemma Free129_48() ensures forall t: nat :: 48 <= t < 96 ==> Untouched(129, t) { }
  lemma Free129_96() ensures forall t: nat :: 96 <= t < 105 ==> Untouched(129, t) { }
  lemma Free105_106() ensures forall t: nat :: 106 <= t < 144 ==> Untouched(105, t) { }
  lemma Free105_144() ensures forall t: nat :: 144 <= t < 192 ==> Untouched(105, t) { }
  lemma Free105_192() ensures forall t: nat :: 192 <= t < 233 ==> Untouched(105, t) { }
  lemma Free233_234() ensures forall t: nat :: 234 <= t < 240 ==> Untouched(233, t) { }
  lemma Free233_240() ensures forall t: nat :: 240 <= t < 256 ==> Untouched(233, t) { }

  lemma Place233()
    ensures Perm(256)[233] == 129
  {
    hide Perm, Untouched;
    Start(129);
    Free129_0();
    Free129_48();
    Free129_96();
    Stays(129, 0, 105);
    Swapped(105);
    Free105_106();
    Free105_144();
    Free105_192();
    Stays(105, 106, 233);
    Swapped(233);
    Free233_234();
    Free233_240();
    Stays(233, 234, 256);
  }

  lemma TurnByte(c: Cipher)
    ensures var t := Turn(c); KeyByte(c) == t.m[(c.m[t.x] as int + c.m[t.y]) % 256] as byte
  {
    hide Turn;
  }

  lemma TurnPlaces(c: Cipher, x: nat, y: nat)
    requires x == (c.x + 1) % 256 && y == (c.y + c.m[x]) % 256
    ensures Turn(c) == Cipher(x, y, c.m[x := c.m[y]][y := c.m[x]])
  {
  }

  /** One turn, given its two places. */
  lemma Turned(c: Cipher, x: nat, y: nat)
    requires x == (c.x + 1) % 256 && y == (c.y + c.m[x]) % 256
    ensures Turn(c) == Cipher(x, y, c.m[x := c.m[y]][y := c.m[x]])
    ensures KeyByte(c) == Turn(c).m[(c.m[x] as int + c.m[y]) % 256] as byte
  {
    TurnByte(c);
    TurnPlaces(c, x, y);
    hide Turn, KeyByte;
  }

  lemma ZeroXor(k: byte)
    ensures 0 ^ k == k
  {
  }

  lemma CryptNext(c: Cipher, rest: seq<byte>)
    ensures Crypt(c, [0] + rest) == [KeyByte(c)] + Crypt(Turn(c), rest)
  {
    hide Turn, KeyByte;
    ZeroXor(KeyByte(c));
    assert ([0 as byte] + rest)[1..] == rest;
  }

  lemma CryptFour(c: Cipher)
    ensures var d := Turn(Turn(c));
            Crypt(c, [0, 0, 0, 0]) == [KeyByte(c), KeyByte(Turn(c)), KeyByte(d), KeyByte(Turn(d))]
  {
    hide Turn, KeyByte;
    var d := Turn(Turn(c));
    CryptNext(c, [0, 0, 0]);
    CryptNext(Turn(c), [0, 0]);
    CryptNext(d, [0]);
    CryptNext(Turn(d), []);
    assert [0 as byte] + [0, 0, 0] == [0, 0, 0, 0] && [0 as byte] + [0, 0] == [0, 0, 0];
    assert [0 as byte] + [0] == [0, 0] && [0 as byte] + [] == [0];
    hide Crypt;
    assert Crypt(Turn(Turn(d)), []) == [];
  }

  /** The published key stream. */
  lemma KnownAnswer()
    ensures Crypt(Initial(KEY), [0, 0, 0, 0]) == [0xeb, 0x9f, 0x77, 0x81]
  {
    Place1();
    Place2();
    Place3();
    Place4();
    Place20();
    Place51();
    Place74();
    Place84();
    Place129();
    Place177();
    Place183();
    Place233();
    InitialPerm();
    hide Perm, Schedule, Turn, KeyByte, Initial;
    var c0 := Initial(KEY);
    Turned(c0, 1, 51);
    var c1 := Turn(c0);
    assert KeyByte(c0) == 0xeb;
    Turned(c1, 2, 183);
    var c2 := Turn(c1);
    assert KeyByte(c1) == 0x9f;
    Turned(c2, 3, 84);
    var c3 := Turn(c2);
    assert KeyByte(c2) == 0x77;
    Turned(c3, 4, 20);
    var c4 := Turn(c3);
    assert KeyByte(c3) == 0x81;
    CryptFour(c0);
  }
}
