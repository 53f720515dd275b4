/** 32-bit words and their bytes in memory, in either byte order. */
module Words {
  import opened Bytes

  type word = bv32

  function Be(a: byte, b: byte, c: byte, d: byte): word {
    ((a as word) << 24) | ((b as word) << 16) | ((c as word) << 8) | (d as word)
  }

  function Le(a: byte, b: byte, c: byte, d: byte): word {
    Be(d, c, b, a)
  }

  /** Byte k of a word, counted from the most significant. */
  function ByteOf(w: word, k: nat): byte
    requires k < 4
  {
    if k == 0 then (w >> 24) as byte
    else if k == 1 then ((w >> 16) & 0xff) as byte
    else if k == 2 then ((w >> 8) & 0xff) as byte
    else (w & 0xff) as byte
  }

  function BeBytes(w: word): (s: seq<byte>)
    ensures |s| == 4
  {
    [ByteOf(w, 0), ByteOf(w, 1), ByteOf(w, 2), ByteOf(w, 3)]
  }

  function LeBytes(w: word): (s: seq<byte>)
    ensures |s| == 4
  {
    [ByteOf(w, 3), ByteOf(w, 2), ByteOf(w, 1), ByteOf(w, 0)]
  }

  lemma BeOfBytes(w: word)
    ensures Be(ByteOf(w, 0), ByteOf(w, 1), ByteOf(w, 2), ByteOf(w, 3)) == w
  {
  }

  /** A word as a machine of the given byte order loads it from memory. */
  function Load(bigEndian: bool, m: seq<byte>): word
    requires |m| == 4
  {
    if bigEndian then Be(m[0], m[1], m[2], m[3]) else Le(m[0], m[1], m[2], m[3])
  }

  function Store(bigEndian: bool, w: word): (m: seq<byte>)
    ensures |m| == 4
  {
    if bigEndian then BeBytes(w) else LeBytes(w)
  }

  lemma LoadStore(bigEndian: bool, w: word)
    ensures Load(bigEndian, Store(bigEndian, w)) == w
  {
    hide Be, ByteOf;
    BeOfBytes(w);
  }

  /** The byte swap of longReverse. */
  function Swap(v: word): word {
    var h := ((v & 0xFF00FF00) >> 8) | ((v & 0x00FF00FF) << 8);
    (h << 16) | (h >> 16)
  }

  lemma SwapReverses(a: byte, b: byte, c: byte, d: byte)
    ensures Swap(Be(a, b, c, d)) == Be(d, c, b, a)
  {
  }

  /** The 16 words of a 64-byte block, in a machine's byte order. */
  function Loads(bigEndian: bool, block: seq<byte>): (w: seq<word>)
    requires |block| == 64
    ensures |w| == 16
    ensures forall i :: 0 <= i < 16 ==> w[i] == Load(bigEndian, block[4 * i..4 * i + 4])
  {
    seq(16, i requires 0 <= i < 16 => Load(bigEndian, block[4 * i..4 * i + 4]))
  }
}
