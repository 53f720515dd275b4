/** The RC4 stream cipher: key schedule and in-place encryption. */
module Rc4 {
  import opened Bytes

  datatype CipherRaw = Cipher(x: U8, y: U8, m: seq<U8>)

  /** The value of a cipher state. */
  type Cipher = c: CipherRaw | |c.m| == 256 witness Cipher(0, 0, seq(256, i => 0))

  /** One turn of the generator: the state after it ... */
  function Turn(c: Cipher): Cipher {
    var x := (c.x + 1) % 256;
    var a := c.m[x];
    var y := (c.y + a) % 256;
    Cipher(x, y, c.m[x := c.m[y]][y := a])
  }

  /** ... and the key stream byte it yields. */
  function KeyByte(c: Cipher): byte {
    var t := Turn(c);
    var (a: int, b: int) := (c.m[t.x], c.m[t.y]);
    t.m[(a + b) % 256] as byte
  }

  /** The state after n turns. */
  function Advance(c: Cipher, n: nat): Cipher
    decreases n
  {
    if n == 0 then c else Advance(Turn(c), n - 1)
  }

  /** The data XORed with the key stream that starts at c. */
  function Crypt(c: Cipher, data: seq<byte>): (r: seq<byte>)
    ensures |r| == |data|
    decreases |data|
  {
    if data == [] then [] else [data[0] ^ KeyByte(c)] + Crypt(Turn(c), data[1..])
  }

  // ----- laws of the stream

  lemma {:induction false} AdvanceAdd(c: Cipher, m: nat, n: nat)
    ensures Advance(c, m + n) == Advance(Advance(c, m), n)
    decreases m
  {
    if m > 0 {
      AdvanceAdd(Turn(c), m - 1, n);
    }
  }

  lemma AdvanceNext(c: Cipher, n: nat)
    ensures Advance(c, n + 1) == Turn(Advance(c, n))
  {
    AdvanceAdd(c, n, 1);
    var d := Advance(c, n);
    assert Advance(d, 1) == Advance(Turn(d), 0);
  }

  /** Encrypting in two chunks is encrypting at once: chunk sizes do not matter. */
  lemma {:induction false} CryptConcat(c: Cipher, a: seq<byte>, b: seq<byte>)
    ensures Crypt(c, a + b) == Crypt(c, a) + Crypt(Advance(c, |a|), b)
    decreases |a|
  {
    if a == [] {
      assert a + b == b;
    } else {
      assert (a + b)[1..] == a[1..] + b;
      CryptConcat(Turn(c), a[1..], b);
    }
  }

  lemma XorTwice(a: byte, k: byte)
    ensures (a ^ k) ^ k == a
  {
  }

  /** Two equal states decrypt what the other encrypted. */
  lemma {:induction false} CryptInverse(c: Cipher, data: seq<byte>)
    ensures Crypt(c, Crypt(c, data)) == data
    decreases |data|
  {
    if data != [] {
      XorTwice(data[0], KeyByte(c));
      CryptInverse(Turn(c), data[1..]);
      assert Crypt(c, data)[1..] == Crypt(Turn(c), data[1..]);
    }
  }

  /** The chunks encrypted one rc4_crypt call after another. */
  function CryptChunks(c: Cipher, chunks: seq<seq<byte>>): seq<seq<byte>>
    decreases |chunks|
  {
    if chunks == [] then []
    else [Crypt(c, chunks[0])] + CryptChunks(Advance(c, |chunks[0]|), chunks[1..])
  }

  /** However a stream is cut into calls, the bytes produced are the same. */
  lemma {:induction false} ChunkIndependence(c: Cipher, chunks: seq<seq<byte>>)
    ensures Flatten(CryptChunks(c, chunks)) == Crypt(c, Flatten(chunks))
    decreases |chunks|
  {
    if chunks != [] {
      var rest := Advance(c, |chunks[0]|);
      ChunkIndependence(rest, chunks[1..]);
      CryptConcat(c, chunks[0], Flatten(chunks[1..]));
      assert CryptChunks(c, chunks)[1..] == CryptChunks(rest, chunks[1..]);
    }
  }

  /** Byte k of a stream meets the key byte of k turns. */
  lemma {:induction false} CryptAt(c: Cipher, data: seq<byte>, k: nat)
    requires k < |data|
    ensures Crypt(c, data)[k] == data[k] ^ KeyByte(Advance(c, k))
    decreases k
  {
    hide KeyByte, Turn;
    if k > 0 {
      CryptAt(Turn(c), data[1..], k - 1);
    }
  }

  // ----- the state stays a permutation of the bytes

  ghost predicate Permutation(m: seq<U8>) {
    |m| == 256 && forall i, j :: 0 <= i < j < 256 ==> m[i] != m[j]
  }

  /** However long a cipher runs, its table holds every byte exactly once. */
  lemma {:induction false} AdvancePermutation(c: Cipher, n: nat)
    requires Permutation(c.m)
    ensures Permutation(Advance(c, n).m)
    decreases n
  {
    if n > 0 {
      AdvancePermutation(Turn(c), n - 1);
    }
  }

  // ----- the key schedule

  /** i modulo n, by repeated subtraction. */
  function Wrap(i: nat, n: nat): (k: nat)
    requires n > 0
    ensures k < n
  {
    if i < n then i else Wrap(i - n, n)
  }

  /** A counter that falls back to 0 at n counts modulo n. */
  lemma {:induction false} WrapNext(i: nat, n: nat)
    requires n > 0
    ensures Wrap(i + 1, n) == if Wrap(i, n) + 1 >= n then 0 else Wrap(i, n) + 1
  {
    if i >= n {
      WrapNext(i - n, n);
    }
  }

  /** Byte i of the key repeated end to end; an empty C string reads as its terminator. */
  function KeyAt(key: seq<U8>, i: nat): U8 {
    if |key| == 0 then 0 else key[Wrap(i, |key|)]
  }

  /** Swap i of the schedule, steered by one key byte. */
  function Mix(m: seq<U8>, j: U8, i: nat, k: U8): (seq<U8>, U8)
    requires |m| == 256 && i < 256
  {
    var j' := (j + m[i] + k) % 256;
    (m[i := m[j']][j' := m[i]], j')
  }

  /** The first n swaps of the schedule: the permutation and the index j. */
  function Schedule(key: seq<U8>, n: nat): (r: (seq<U8>, U8))
    requires n <= 256
    ensures Permutation(r.0)
  {
    if n == 0 then
      (seq(256, i requires 0 <= i < 256 => i), 0)
    else
      var (m, j) := Schedule(key, n - 1);
      Mix(m, j, n - 1, KeyAt(key, n - 1))
  }

  /** The state rc4_setup leaves for a key. */
  function Initial(key: seq<U8>): (c: Cipher)
    ensures c.x == 0 && c.y == 0 && Permutation(c.m)
  {
    Cipher(0, 0, Schedule(key, 256).0)
  }

  lemma MixTellsByte(m: seq<U8>, j: U8, i: nat, k: U8, l: U8)
    requires |m| == 256 && i < 256 && Mix(m, j, i, k).1 == Mix(m, j, i, l).1
    ensures k == l
  {
    var s: int := j as int + m[i];
    assert (s + k) % 256 == (s + l) % 256;
  }

  /** The indices of the first swaps give the key away: two keys that agree in them are the same so far. */
  lemma {:induction false} IndicesTellKey(a: seq<U8>, b: seq<U8>, n: nat)
    requires |a| == |b| <= 256 && n <= |a|
    requires forall i :: 0 <= i <= n ==> Schedule(a, i).1 == Schedule(b, i).1
    ensures a[..n] == b[..n] && Schedule(a, n) == Schedule(b, n)
    decreases n
  {
    hide Mix;
    if n > 0 {
      IndicesTellKey(a, b, n - 1);
      var (m, j) := Schedule(a, n - 1);
      assert KeyAt(a, n - 1) == a[n - 1] && KeyAt(b, n - 1) == b[n - 1];
      assert Schedule(a, n) == Mix(m, j, n - 1, a[n - 1]) && Schedule(b, n) == Mix(m, j, n - 1, b[n - 1]);
      MixTellsByte(m, j, n - 1, a[n - 1], b[n - 1]);
    }
  }

  /** So every byte of a key counts: keys of one length whose indices agree are equal. */
  lemma EqualKeys(a: seq<U8>, b: seq<U8>)
    requires |a| == |b| <= 256
    requires forall n :: 0 <= n <= |a| ==> Schedule(a, n).1 == Schedule(b, n).1
    ensures a == b
  {
    hide Schedule;
    IndicesTellKey(a, b, |a|);
    assert a[..|a|] == a && b[..|b|] == b;
  }

  class Rc4State {
    var x: U8
    var y: U8
    const m: array<U8>

    ghost predicate Valid()
      reads this
    {
      m.Length == 256
    }

    ghost function View(): (c: Cipher)
      requires Valid()
      reads this, m
    {
      Cipher(x, y, m[..])
    }

    /** One swap of rc4_setup's loop. */
    method Swap(i: nat, j: U8, k: U8) returns (j': U8)
      requires Valid() && i < 256
      modifies m
      ensures (m[..], j') == Mix(old(m[..]), j, i, k)
    {
      var a: int := m[i];
      j' := (j + a + k) % 256;
      m[i] := m[j'];
      m[j'] := a;
    }

    /** malloc followed by rc4_setup. */
    constructor (key: seq<U8>)
      ensures Valid() && fresh(m)
      ensures View() == Initial(key)
    {
      x, y := 0, 0;
      m := new U8[256](i requires 0 <= i < 256 => i);
      new;
      hide Permutation, Mix;
      assert m[..] == Schedule(key, 0).0;
      var j: U8, k := 0, 0;
      var i := 0;
      while i < 256
        invariant 0 <= i <= 256
        invariant k == if |key| == 0 then 0 else Wrap(i, |key|)
        invariant (m[..], j) == Schedule(key, i)
        modifies m
      {
        j := Swap(i, j, if k < |key| then key[k] else 0);
        if |key| > 0 {
          WrapNext(i, |key|);
        }
        k := k + 1;
        if k >= |key| {
          k := 0;
        }
        i := i + 1;
      }
    }

    /** The body of rc4_crypt's loop up to the XOR: one turn, and the key byte it yields. */
    method NextKeyByte() returns (k: byte)
      requires Valid()
      modifies this, m
      ensures Valid()
      ensures View() == Turn(old(View())) && k == KeyByte(old(View()))
    {
      ghost var c := View();
      x := (x + 1) % 256;
      var a: int := m[x];
      y := (y + a) % 256;
      var b: int := m[y];
      m[x] := b;
      m[y] := a;
      assert m[..] == Turn(c).m;
      k := m[(a + b) % 256] as byte;
    }

    /** rc4_crypt on the n bytes of data that start at offset `at`. */
    method CryptInPlace(data: array<byte>, at: nat, n: nat)
      requires Valid()
      requires at + n <= data.Length && data as object != m
      modifies this, m, data
      ensures Valid()
      ensures View() == Advance(old(View()), n)
      ensures data[..] == Splice(old(data[..]), at, Crypt(old(View()), old(data[at..at + n])))
    {
      hide KeyByte, Turn;
      ghost var start := View();
      ghost var input := data[at..at + n];
      ghost var output := Crypt(start, input);
      var i := 0;
      while i < n
        invariant 0 <= i <= n
        invariant View() == Advance(start, i)
        invariant forall k :: at <= k < at + i ==> data[k] == output[k - at]
        invariant forall k :: 0 <= k < data.Length && !(at <= k < at + i) ==> data[k] == old(data[k])
      {
        CryptAt(start, input, i);
        AdvanceNext(start, i);
        var k := NextKeyByte();
        data[at + i] := data[at + i] ^ k;
        i := i + 1;
      }
    }
  }
}
