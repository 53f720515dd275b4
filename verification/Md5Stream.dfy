/** MD5 over a stream of Update calls (RFC 1321). */
module Md5Stream {
  import opened Bytes
  import opened Words
  import opened Md5
  import opened Streaming

  /** One 64-byte block: its bytes are little-endian words (section 2 of RFC 1321). */
  function BlockTransform(): Transform<Buf> {
    (h: Buf, block: seq<byte>) => if |block| == 64 then Compress(h, Loads(false, block)) else h
  }

  /** The length in bits: two little-endian words, low order first (section 3.2). */
  function Length(n: nat): (r: seq<byte>)
    ensures |r| == 8
  {
    LeBytes(LengthLow(n) as word) + LeBytes(LengthHigh(n) as word)
  }

  function Output(b: Buf): seq<byte> {
    LeBytes(b.a) + LeBytes(b.b) + LeBytes(b.c) + LeBytes(b.d)
  }

  /** The MD5 digest of a message (sections 3.1 to 3.5 of RFC 1321). */
  function Hash(message: seq<byte>): (digest: seq<byte>)
    ensures |digest| == 16
  {
    Output(Fold(BlockTransform(), INIT, Padded(message, Length(|message|))))
  }

  /** The counters' words, least significant byte first. */
  ghost predicate LengthWords(lo: nat, hi: nat, length: seq<byte>) {
    lo < TWO32 && hi < TWO32 && length == LeBytes(lo as word) + LeBytes(hi as word)
  }

  lemma LengthSplit(n: nat)
    ensures LengthWords(LengthLow(n), LengthHigh(n), Length(n))
  {
    hide LeBytes, LengthLow, LengthHigh;
    WordSized(n);
  }

  lemma CountWords(lo: nat, hi: nat, n: nat)
    requires Counts(lo, hi, n)
    ensures LengthWords(lo, hi, Length(n))
  {
    LengthSplit(n);
    hide LengthWords, Length;
  }

  /** MD5Context; memory is read little-endian, as on arm and i386 where HIGHFIRST is undefined. */
  class Md5Context {
    var buf: Buf
    /** The bit count, low word first. */
    var bits0: nat
    var bits1: nat
    const input: array<byte>
    ghost var fed: seq<byte>

    ghost predicate Valid()
      reads this, input
    {
      && input.Length == 64
      && buf == Fold(BlockTransform(), INIT, fed)
      && input[..|fed| % 64] == Rest(fed)
      && Counts(bits0, bits1, |fed|)
    }

    /** MD5Init */
    constructor ()
      ensures Valid() && fed == [] && fresh(input)
    {
      buf := INIT;
      bits0, bits1 := 0, 0;
      input := new byte[64](i => 0);
      fed := [];
    }

    /** MD5Transform on the buffer. */
    method TransformInput()
      requires input.Length == 64
      modifies this`buf
      ensures buf == BlockTransform()(old(buf), input[..])
    {
      hide Compress;
      ghost var start := buf;
      var state := new word[4];
      state[0], state[1], state[2], state[3] := buf.a, buf.b, buf.c, buf.d;
      ghost var block := Loads(false, input[..]);
      var words := new word[16](i requires 0 <= i < 16 && input.Length == 64 reads input => Load(false, input[4 * i..4 * i + 4]));
      assert words[..] == block && Value(state[..]) == start;
      MD5Transform(state, words);
      buf := Buf(state[0], state[1], state[2], state[3]);
    }

    method FillAndTransform(at: nat, data: seq<byte>)
      requires input.Length == 64 && at + |data| == 64
      modifies this`buf, input
      ensures buf == BlockTransform()(old(buf), old(input[..at]) + data)
    {
      hide BlockTransform;
      CopyAt(input, at, data);
      assert input[..] == old(input[..at]) + data;
      TransformInput();
    }

    /** The bit count moves on as the two-word sum with carry. */
    method BumpBits(len: nat)
      modifies this`bits0, this`bits1
      ensures bits0 == CountLow(old(bits0), len)
      ensures bits1 == CountHigh(old(bits0), old(bits1), len)
    {
      var t := bits0;
      bits0 := (t + 8 * len % TWO32) % TWO32;
      if bits0 < t {
        bits1 := (bits1 + 1) % TWO32;
      }
      bits1 := (bits1 + len / 0x2000_0000) % TWO32;
    }

    /** Whole blocks are transformed; the remainder goes to the start of the buffer. */
    method TransformAll(data: seq<byte>)
      requires input.Length == 64
      modifies this`buf, input
      ensures buf == Fold(BlockTransform(), old(buf), data)
      ensures input[..|data| % 64] == Rest(data)
    {
      hide BlockTransform;
      var rest := data;
      while |rest| >= 64
        invariant Fold(BlockTransform(), buf, rest) == Fold(BlockTransform(), old(buf), data)
        invariant Rest(rest) == Rest(data)
        decreases |rest|
      {
        assert input[..0] + rest[..64] == rest[..64];
        FillAndTransform(0, rest[..64]);
        rest := rest[64..];
      }
      CopyAt(input, 0, rest);
      assert input[..|rest|] == rest;
    }

    /** MD5Update */
    method Update(data: seq<byte>)
      requires Valid() && |data| < TWO32
      modifies this`buf, this`bits0, this`bits1, this`fed, input
      ensures Valid() && fed == old(fed) + data
    {
      hide BlockTransform, Fold, Rest, CountLow, CountHigh, Counts, LengthLow;
      ghost var f := BlockTransform();
      var len := |data|;
      var t := bits0 / 8 % 64;
      Position(bits0, bits1, |fed|);
      CountAdds(bits0, bits1, |fed|, len);
      BumpBits(len);
      ghost var left := Rest(fed);
      FoldConcat(f, INIT, fed, data);
      fed := fed + data;
      var rest := data;
      if t != 0 {
        var room := 64 - t;
        if len < room {
          FoldShort(f, buf, left + data);
          CopyAt(input, t, data);
          assert input[..|left + data|] == left + data;
          return;
        }
        FoldBlock(f, buf, left + data);
        assert (left + data)[..64] == left + data[..room] && (left + data)[64..] == data[room..];
        FillAndTransform(t, data[..room]);
        rest := data[room..];
      } else {
        assert left + data == data;
      }
      TransformAll(rest);
    }

    /** The first half of MD5Final: a one bit and zeros, over one block or two. */
    method Pad()
      requires Valid()
      modifies this`buf, input
      ensures var left, f := Rest(fed), BlockTransform();
              if |left| < 56
              then buf == old(buf) && input[..56] == left + [0x80] + Zeros(55 - |left|)
              else buf == f(old(buf), left + [0x80] + Zeros(63 - |left|)) && input[..56] == Zeros(56)
    {
      hide BlockTransform, Fold, Rest, Counts, Splice;
      ghost var left := Rest(fed);
      Position(bits0, bits1, |fed|);
      var count := bits0 / 8 % 64;
      CopyAt(input, count, [0x80]);
      assert input[..count + 1] == left + [0x80];
      count := 63 - count;
      if count < 8 {
        SetAt(input, 64 - count, count);
        assert input[..] == left + [0x80] + Zeros(count);
        TransformInput();
        SetAt(input, 0, 56);
        assert input[..56] == Zeros(56);
      } else {
        SetAt(input, 64 - count, count - 8);
        assert input[..56] == left + [0x80] + Zeros(count - 8);
      }
    }

    /** The length words are stored in memory order and the last block is transformed. */
    method FinalBlock(ghost length: seq<byte>)
      requires input.Length == 64 && LengthWords(bits0, bits1, length)
      modifies this`buf, input
      ensures buf == BlockTransform()(old(buf), old(input[..56]) + length)
    {
      hide BlockTransform, LeBytes;
      CopyAt(input, 56, LeBytes(bits0 as word));
      CopyAt(input, 60, LeBytes(bits1 as word));
      assert input[..] == old(input[..56]) + length;
      TransformInput();
    }

    /** MD5Final */
    method Final() returns (digest: seq<byte>)
      requires Valid()
      modifies this`buf, input
      ensures digest == Hash(fed)
    {
      hide BlockTransform, Fold, Rest, Counts, Length, LengthWords, Padded, LeBytes, Zeros;
      PaddedFold(BlockTransform(), INIT, fed, Length(|fed|));
      CountWords(bits0, bits1, |fed|);
      Pad();
      FinalBlock(Length(|fed|));
      assert buf == Fold(BlockTransform(), INIT, Padded(fed, Length(|fed|)));
      digest := Output(buf);
      // sizeof(ctx) is the size of a pointer, so memset clears one word of the context
      buf := buf.(a := 0);
    }
  }

  /** However a message is cut into Update calls, the digest is that of the whole. */
  method HashChunks(chunks: seq<seq<byte>>) returns (digest: seq<byte>)
    requires forall i :: 0 <= i < |chunks| ==> |chunks[i]| < TWO32
    ensures digest == Hash(Flatten(chunks))
  {
    hide Hash, Md5Context.Valid;
    var context := new Md5Context();
    var i := 0;
    while i < |chunks|
      invariant 0 <= i <= |chunks|
      invariant context.Valid() && context.fed == Flatten(chunks[..i])
      invariant fresh(context.input)
    {
      assert chunks[..i + 1] == chunks[..i] + [chunks[i]];
      FlattenAppend(chunks[..i], chunks[i]);
      context.Update(chunks[i]);
      i := i + 1;
    }
    assert chunks[..i] == chunks;
    digest := context.Final();
  }
}
