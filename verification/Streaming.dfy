/**
 * Iterated hashing of a byte string in 64-byte blocks, as in sections 3.1 to 3.4 of RFC 1321
 * and section 4 of RFC 3174: the reference the streaming code is measured against.
 */
module Streaming {
  import opened Bytes

  /** A block transform: from a state and 64 bytes to a state. */
  type Transform<!T> = (T, seq<byte>) -> T

  /** The state after all whole blocks of the data. */
  function Fold<T>(f: Transform<T>, h: T, data: seq<byte>): T
    decreases |data|
  {
    if |data| < 64 then h else Fold(f, f(h, data[..64]), data[64..])
  }

  /** The bytes after the last whole block. */
  function Rest(data: seq<byte>): (r: seq<byte>)
    ensures |r| < 64 && |r| == |data| % 64 && |r| <= |data|
    decreases |data|
  {
    if |data| < 64 then data else Rest(data[64..])
  }

  /** Hashing a then b is hashing what a left over followed by b. */
  lemma {:induction false} FoldConcat<T>(f: Transform<T>, h: T, a: seq<byte>, b: seq<byte>)
    ensures Fold(f, h, a + b) == Fold(f, Fold(f, h, a), Rest(a) + b)
    ensures Rest(a + b) == Rest(Rest(a) + b)
    decreases |a|
  {
    if |a| >= 64 {
      assert (a + b)[..64] == a[..64] && (a + b)[64..] == a[64..] + b;
      FoldConcat(f, f(h, a[..64]), a[64..], b);
    }
  }

  function Zeros(n: nat): (z: seq<byte>)
    ensures |z| == n
  {
    seq(n, i => 0)
  }

  /** How many zero bytes padding a message of n bytes takes. */
  function PadZeros(n: nat): nat {
    (119 - n % 64) % 64
  }

  const TWO32 := 0x1_0000_0000

  /** The two words of the message length in bits, modulo 2^64. */
  function LengthLow(n: nat): nat {
    8 * n % TWO32
  }

  function LengthHigh(n: nat): nat {
    8 * n / TWO32 % TWO32
  }

  lemma WordSized(n: nat)
    ensures LengthLow(n) < TWO32 && LengthHigh(n) < TWO32
  {
  }

  /** The message, a one bit, zeros up to 56 modulo 64, and eight bytes of length. */
  function Padded(data: seq<byte>, length: seq<byte>): seq<byte> {
    data + [0x80] + Zeros(PadZeros(|data|)) + length
  }

  lemma PadZerosCases(n: nat)
    ensures PadZeros(n) == if n % 64 < 56 then 55 - n % 64 else 119 - n % 64
  {
  }

  lemma OneBlock<T>(f: Transform<T>, h: T, block: seq<byte>)
    requires |block| == 64
    ensures Fold(f, h, block) == f(h, block)
  {
    assert block[..64] == block;
    assert Fold(f, f(h, block), block[64..]) == f(h, block);
  }

  lemma TwoBlocks<T>(f: Transform<T>, h: T, a: seq<byte>, b: seq<byte>)
    requires |a| == |b| == 64
    ensures Fold(f, h, a + b) == f(f(h, a), b)
  {
    assert (a + b)[..64] == a && (a + b)[64..] == b;
    OneBlock(f, f(h, a), b);
  }

  /** What padding leaves to hash once the whole blocks of the message are absorbed: one block or two. */
  lemma PaddedFold<T>(f: Transform<T>, h: T, data: seq<byte>, length: seq<byte>)
    requires |length| == 8
    ensures var left, before := Rest(data), Fold(f, h, data);
            Fold(f, h, Padded(data, length)) ==
            if |left| < 56 then f(before, left + [0x80] + Zeros(55 - |left|) + length)
            else f(f(before, left + [0x80] + Zeros(63 - |left|)), Zeros(56) + length)
  {
    hide Fold, PadZeros;
    var left, before := Rest(data), Fold(f, h, data);
    var n := |left|;
    PadZerosCases(|data|);
    var tail := [0x80] + Zeros(PadZeros(|data|)) + length;
    assert Padded(data, length) == data + tail;
    FoldConcat(f, h, data, tail);
    var stream := left + tail;
    if n < 56 {
      OneBlock(f, before, stream);
      assert stream == left + [0x80] + Zeros(55 - n) + length;
    } else {
      assert Zeros(119 - n) == Zeros(63 - n) + Zeros(56);
      var first, last := left + [0x80] + Zeros(63 - n), Zeros(56) + length;
      assert stream == first + last;
      TwoBlocks(f, before, first, last);
    }
  }

  // ----- the 64-bit bit count kept in two words

  /** What Update does to the counters for `count` more bytes. */
  function CountLow(lo: nat, count: nat): nat {
    (lo + 8 * count % TWO32) % TWO32
  }

  function CountHigh(lo: nat, hi: nat, count: nat): nat {
    ((if CountLow(lo, count) < lo then (hi + 1) % TWO32 else hi) + count / 0x2000_0000) % TWO32
  }

  /** The counters hold the bit length of n bytes modulo 2^64. */
  ghost predicate Counts(lo: nat, hi: nat, n: nat) {
    lo == LengthLow(n) && hi == LengthHigh(n)
  }

  lemma DivMod(x: int, m: int, q: int, r: int)
    requires 0 <= r < m && x == q * m + r
    ensures x / m == q && x % m == r
  {
    var d := x / m - q;
    assert d >= 1 ==> d * m >= m;
    assert d <= -1 ==> d * m <= -m;
    assert x == m * (x / m) + x % m;
    assert d * m == r - x % m;
  }

  lemma ModShift(x: int, m: int, k: int)
    requires m > 0
    ensures (x + k * m) % m == x % m
  {
    DivMod(x + k * m, m, x / m + k, x % m);
  }

  /** The carry is added modulo 2^32, and then the rest. */
  lemma CarryHigh(a: nat, b: nat, carry: nat)
    requires carry <= 1
    ensures ((if carry == 1 then (a % TWO32 + 1) % TWO32 else a % TWO32) + b) % TWO32 == (a + b + carry) % TWO32
  {
    var h := a % TWO32;
    var h' := if carry == 1 then (h + 1) % TWO32 else h;
    var k := (h + carry) / TWO32;
    assert h + carry == k * TWO32 + h';
    assert a + b + carry == (h' + b) + (a / TWO32 + k) * TWO32;
    ModShift(h' + b, TWO32, a / TWO32 + k);
  }

  lemma CountAdds(lo: nat, hi: nat, n: nat, count: nat)
    requires Counts(lo, hi, n) && count < TWO32
    ensures Counts(CountLow(lo, count), CountHigh(lo, hi, count), n + count)
  {
    var a, b, x := 8 * n / TWO32, 8 * count / TWO32, 8 * count % TWO32;
    var carry := if lo + x >= TWO32 then 1 else 0;
    var low, high := lo + x - carry * TWO32, a + b + carry;
    assert 8 * n == a * TWO32 + lo && 8 * count == b * TWO32 + x;
    DivMod(8 * (n + count), TWO32, high, low);
    DivMod(lo + x, TWO32, carry, low);
    DivMod(count, 0x2000_0000, b, x / 8);
    CarryHigh(a, b, carry);
    assert CountLow(lo, count) == low;
  }

  /** The buffer position kept in bits 3 to 8 of the low counter. */
  lemma CountPosition(lo: nat, n: nat)
    requires lo == LengthLow(n)
    ensures lo / 8 % 64 == n % 64
  {
    var q := 8 * n / TWO32;
    var m := n - q * 0x2000_0000;
    assert lo == 8 * m;
    DivMod(lo, 8, m, 0);
    ModShift(m, 64, q * 0x80_0000);
  }

  lemma Position(lo: nat, hi: nat, n: nat)
    requires Counts(lo, hi, n)
    ensures lo / 8 % 64 == n % 64
  {
    CountPosition(lo, n);
  }

  lemma FoldShort<T>(f: Transform<T>, h: T, data: seq<byte>)
    requires |data| < 64
    ensures Fold(f, h, data) == h && Rest(data) == data
  {
  }

  lemma FoldBlock<T>(f: Transform<T>, h: T, data: seq<byte>)
    requires |data| >= 64
    ensures Fold(f, h, data) == Fold(f, f(h, data[..64]), data[64..]) && Rest(data) == Rest(data[64..])
  {
  }

  /** memset(buf + at, 0, n) */
  method SetAt(buf: array<byte>, at: nat, n: nat)
    requires at + n <= buf.Length
    modifies buf
    ensures buf[..] == Splice(old(buf[..]), at, Zeros(n))
  {
    forall i | 0 <= i < n {
      buf[at + i] := 0;
    }
  }
}
