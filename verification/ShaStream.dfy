/** SHA-1 over a stream of Update calls, and HMAC on top of it. */
module ShaStream {
  import opened Bytes
  import opened Words
  import opened Streaming
  import Sha1

  const INIT := Sha1.Digest(0x67452301, 0xEFCDAB89, 0x98BADCFE, 0x10325476, 0xC3D2E1F0)

  /** One 64-byte block: its bytes are big-endian words (section 4 of RFC 3174). */
  function BlockTransform(h: Sha1.Digest, block: seq<byte>): Sha1.Digest {
    if |block| == 64 then Sha1.Compress(h, Loads(true, block)) else h
  }

  /** The length in bits: two big-endian words, high order first. */
  function Length(n: nat): (r: seq<byte>)
    ensures |r| == 8
  {
    BeBytes(LengthHigh(n) as word) + BeBytes(LengthLow(n) as word)
  }

  function Output(d: Sha1.Digest): seq<byte> {
    BeBytes(d.a) + BeBytes(d.b) + BeBytes(d.c) + BeBytes(d.d) + BeBytes(d.e)
  }

  /** The SHA-1 digest of a message: fold the compression function over the padded message. */
  function Hash(message: seq<byte>): (digest: seq<byte>)
    ensures |digest| == 20
  {
    Output(Fold(BlockTransform, INIT, Padded(message, Length(|message|))))
  }

  /** The four bytes of word i. */
  function Quad(m: seq<byte>, i: nat): (q: seq<byte>)
    requires 4 * i + 4 <= |m|
    ensures |q| == 4
  {
    m[4 * i..4 * i + 4]
  }

  /** A machine that loads a word of `after` sees the big-endian word of `before`, for the first k words. */
  ghost predicate Reversed(bigEndian: bool, before: seq<byte>, after: seq<byte>, k: nat) {
    && |before| == |after| && 4 * k <= |before|
    && (forall i :: 0 <= i < k ==> Load(bigEndian, Quad(after, i)) == Load(true, Quad(before, i)))
    && forall j :: 4 * k <= j < |before| ==> after[j] == before[j]
  }

  lemma SwapLoad(m: seq<byte>)
    requires |m| == 4
    ensures Swap(Load(false, m)) == Load(true, m)
  {
    SwapReverses(m[3], m[2], m[1], m[0]);
  }

  lemma ReverseNext(before: seq<byte>, mid: seq<byte>, k: nat)
    requires Reversed(false, before, mid, k) && 4 * k + 4 <= |mid|
    ensures Reversed(false, before, Splice(mid, 4 * k, Store(false, Swap(Load(false, Quad(mid, k))))), k + 1)
  {
    hide Load, Store, Swap;
    assert Quad(mid, k) == Quad(before, k);
    var word := Swap(Load(false, Quad(mid, k)));
    SwapLoad(Quad(mid, k));
    LoadStore(false, word);
    var after := Splice(mid, 4 * k, Store(false, word));
    assert Quad(after, k) == Store(false, word);
    forall i | 0 <= i < k
      ensures Quad(after, i) == Quad(mid, i)
    {
    }
  }

  /** longReverse: on a little-endian machine, swap the bytes of the first byteCount / 4 words. */
  method LongReverse(buffer: array<byte>, byteCount: nat, bigEndian: bool, endianness: bool)
    requires byteCount <= buffer.Length && byteCount % 4 == 0 && endianness == bigEndian
    modifies buffer
    ensures Reversed(bigEndian, old(buffer[..]), buffer[..], byteCount / 4)
  {
    hide Load, Store, Swap;
    if endianness {
      return;
    }
    var k := 0;
    while k < byteCount / 4
      invariant 0 <= k <= byteCount / 4
      invariant Reversed(bigEndian, old(buffer[..]), buffer[..], k)
    {
      ReverseNext(old(buffer[..]), buffer[..], k);
      var value := Load(bigEndian, Quad(buffer[..], k));
      CopyAt(buffer, 4 * k, Store(bigEndian, Swap(value)));
      k := k + 1;
    }
  }

  lemma LoadBytes(w: word)
    ensures Load(true, BeBytes(w)) == w
  {
    LoadStore(true, w);
  }

  /** The last block as the machine sees it: reversed message bytes and two native length words. */
  lemma LastBlock(bigEndian: bool, filled: seq<byte>, reversed: seq<byte>, hi: word, lo: word)
    requires |filled| == 64 && Quad(filled, 14) == Store(bigEndian, hi) && Quad(filled, 15) == Store(bigEndian, lo)
    requires Reversed(bigEndian, filled, reversed, 14)
    ensures Loads(bigEndian, reversed) == Loads(true, filled[..56] + (BeBytes(hi) + BeBytes(lo)))
  {
    hide Load, Store, BeBytes;
    var block := filled[..56] + (BeBytes(hi) + BeBytes(lo));
    forall i | 0 <= i < 16
      ensures Load(bigEndian, Quad(reversed, i)) == Load(true, Quad(block, i))
    {
      if i < 14 {
        assert Quad(block, i) == Quad(filled, i);
      } else {
        var w := if i == 14 then hi else lo;
        assert Quad(reversed, i) == Quad(filled, i) == Store(bigEndian, w);
        assert block[56..] == BeBytes(hi) + BeBytes(lo);
        assert Quad(block, i) == block[56..][4 * i - 56..4 * i - 52] == BeBytes(w);
        LoadStore(bigEndian, w);
        LoadBytes(w);
      }
    }
    assert forall i :: 0 <= i < 16 ==> Loads(bigEndian, reversed)[i] == Load(bigEndian, Quad(reversed, i));
    assert forall i :: 0 <= i < 16 ==> Loads(true, block)[i] == Load(true, Quad(block, i));
  }

  lemma StoredWords(data: seq<byte>, hi: seq<byte>, lo: seq<byte>)
    requires |data| == 64 && |hi| == 4 && |lo| == 4
    ensures var filled := Splice(Splice(data, 56, hi), 60, lo);
            filled[..56] == data[..56] && Quad(filled, 14) == hi && Quad(filled, 15) == lo
  {
  }

  /** The counters' words, most significant byte first. */
  ghost predicate LengthWords(lo: nat, hi: nat, length: seq<byte>) {
    lo < TWO32 && hi < TWO32 && length == BeBytes(hi as word) + BeBytes(lo as word)
  }

  lemma LengthSplit(n: nat)
    ensures LengthWords(LengthLow(n), LengthHigh(n), Length(n))
  {
    hide BeBytes, LengthLow, LengthHigh;
    WordSized(n);
  }

  lemma CountWords(lo: nat, hi: nat, n: nat)
    requires Counts(lo, hi, n)
    ensures LengthWords(lo, hi, Length(n))
  {
    LengthSplit(n);
    hide LengthWords, Length;
  }

  /** SHA_CTX on a machine of either byte order; `fed` is everything hashed so far. */
  class ShaContext {
    const bigEndian: bool
    const digest: array<word>
    var countLo: nat
    var countHi: nat
    const data: array<byte>
    /** What endianTest found out. */
    const endianness: bool
    ghost var fed: seq<byte>

    ghost predicate Shape()
      reads this
    {
      digest.Length == 5 && data.Length == 64 && endianness == bigEndian
    }

    /** The state has absorbed the whole blocks of `fed`, the buffer holds the rest, the counters its length. */
    ghost predicate Valid()
      reads this, digest, data
    {
      && Shape()
      && Sha1.Value(digest[..]) == Fold(BlockTransform, INIT, fed)
      && data[..|fed| % 64] == Rest(fed)
      && Counts(countLo, countHi, |fed|)
    }

    /** SHAInit */
    constructor (bigEndian: bool)
      ensures Valid() && fed == [] && fresh(digest) && fresh(data)
    {
      this.bigEndian := bigEndian;
      endianness := bigEndian;
      digest := new word[5][0x67452301, 0xEFCDAB89, 0x98BADCFE, 0x10325476, 0xC3D2E1F0];
      countLo, countHi := 0, 0;
      data := new byte[64](i => 0);
      fed := [];
    }

    /** SHSTransform on the words the machine finds in the buffer. */
    method Compress(ghost block: seq<byte>)
      requires Shape() && |block| == 64 && Loads(bigEndian, data[..]) == Loads(true, block)
      modifies digest
      ensures Sha1.Value(digest[..]) == BlockTransform(old(Sha1.Value(digest[..])), block)
    {
      hide Sha1.Compress, Load;
      var words := new word[16](i requires 0 <= i < 16 && data.Length == 64 reads data => Load(bigEndian, data[4 * i..4 * i + 4]));
      assert words[..] == Loads(true, block) by {
        assert forall i :: 0 <= i < 16 ==> data[..][4 * i..4 * i + 4] == data[4 * i..4 * i + 4];
      }
      Sha1.SHSTransform(digest, words);
    }

    /** longReverse of a full buffer, then the transform. */
    method AbsorbBlock()
      requires Shape()
      modifies digest, data
      ensures Sha1.Value(digest[..]) == BlockTransform(old(Sha1.Value(digest[..])), old(data[..]))
    {
      hide Load;
      ghost var block := data[..];
      LongReverse(data, 64, bigEndian, endianness);
      assert Loads(bigEndian, data[..]) == Loads(true, block) by {
        forall i | 0 <= i < 16
          ensures Load(bigEndian, data[..][4 * i..4 * i + 4]) == Load(true, block[4 * i..4 * i + 4])
        {
          assert Load(bigEndian, Quad(data[..], i)) == Load(true, Quad(block, i));
        }
      }
      Compress(block);
    }

    /** Fill the buffer from offset `at` with the start of the input and absorb it. */
    method FillAndAbsorb(at: nat, input: seq<byte>)
      requires Shape() && at + |input| == 64
      modifies digest, data
      ensures Sha1.Value(digest[..]) == BlockTransform(old(Sha1.Value(digest[..])), old(data[..at]) + input)
    {
      hide BlockTransform;
      CopyAt(data, at, input);
      assert data[..] == old(data[..at]) + input;
      AbsorbBlock();
    }

    /** The counters move on as the two-word sum with carry. */
    method BumpCounters(count: nat)
      modifies this`countLo, this`countHi
      ensures countLo == CountLow(old(countLo), count)
      ensures countHi == CountHigh(old(countLo), old(countHi), count)
    {
      var tmp := countLo;
      countLo := (tmp + 8 * count % TWO32) % TWO32;
      if countLo < tmp {
        countHi := (countHi + 1) % TWO32;
      }
      countHi := (countHi + count / 0x2000_0000) % TWO32;
    }

    /** Whole blocks are absorbed; the remainder goes to the start of the buffer. */
    method AbsorbAll(buffer: seq<byte>)
      requires Shape()
      modifies digest, data
      ensures Sha1.Value(digest[..]) == Fold(BlockTransform, old(Sha1.Value(digest[..])), buffer)
      ensures data[..|buffer| % 64] == Rest(buffer)
    {
      hide BlockTransform;
      var rest := buffer;
      ghost var h := Sha1.Value(digest[..]);
      while |rest| >= 64
        invariant Fold(BlockTransform, Sha1.Value(digest[..]), rest) == Fold(BlockTransform, h, buffer)
        invariant Rest(rest) == Rest(buffer)
        decreases |rest|
      {
        assert data[..0] + rest[..64] == rest[..64];
        FillAndAbsorb(0, rest[..64]);
        rest := rest[64..];
      }
      CopyAt(data, 0, rest);
      assert data[..|rest|] == rest;
    }

    /** SHAUpdate */
    method Update(buffer: seq<byte>)
      requires Valid() && |buffer| < 0x8000_0000
      modifies this`countLo, this`countHi, this`fed, digest, data
      ensures Valid() && fed == old(fed) + buffer
    {
      hide BlockTransform, Fold, Rest, CountLow, CountHigh, Counts, LengthLow;
      var count := |buffer|;
      var tmp := countLo;
      CountAdds(countLo, countHi, |fed|, count);
      BumpCounters(count);
      ghost var left := Rest(fed);
      FoldConcat(BlockTransform, INIT, fed, buffer);
      fed := fed + buffer;
      var rest := buffer;
      var dataCount := tmp / 8 % 64;
      Position(old(countLo), old(countHi), |old(fed)|);
      if dataCount != 0 {
        var room := 64 - dataCount;
        if count < room {
          FoldShort(BlockTransform, Sha1.Value(digest[..]), left + buffer);
          CopyAt(data, dataCount, buffer);
          assert data[..|left + buffer|] == left + buffer;
          return;
        }
        FoldBlock(BlockTransform, Sha1.Value(digest[..]), left + buffer);
        assert (left + buffer)[..64] == left + buffer[..room] && (left + buffer)[64..] == buffer[room..];
        FillAndAbsorb(dataCount, buffer[..room]);
        rest := buffer[room..];
      } else {
        assert left + buffer == buffer;
      }
      AbsorbAll(rest);
    }

    /** The first half of SHAFinal: a one bit and zeros, over one block or two. */
    method Pad()
      requires Valid()
      modifies digest, data
      ensures Shape()
      ensures var left, before, after := Rest(fed), old(Sha1.Value(digest[..])), Sha1.Value(digest[..]);
              if |left| < 56
              then after == before && data[..56] == left + [0x80] + Zeros(55 - |left|)
              else after == BlockTransform(before, left + [0x80] + Zeros(63 - |left|)) && data[..56] == Zeros(56)
    {
      hide BlockTransform, Fold, Rest, Counts, Splice, Sha1.Value;
      ghost var left := Rest(fed);
      Position(countLo, countHi, |fed|);
      var count := countLo / 8 % 64;
      CopyAt(data, count, [0x80]);
      assert data[..count + 1] == left + [0x80];
      var pad := 63 - count;
      if pad < 8 {
        SetAt(data, count + 1, pad);
        assert data[..] == left + [0x80] + Zeros(pad);
        AbsorbBlock();
        SetAt(data, 0, 56);
        assert data[..56] == Zeros(56);
      } else {
        SetAt(data, count + 1, pad - 8);
        assert data[..56] == left + [0x80] + Zeros(pad - 8);
      }
    }

    /** The length words are stored in native order and the last block is transformed. */
    method FinalBlock(ghost length: seq<byte>)
      requires Shape() && LengthWords(countLo, countHi, length)
      modifies digest, data
      ensures Sha1.Value(digest[..]) == BlockTransform(old(Sha1.Value(digest[..])), old(data[..56]) + length)
    {
      hide BlockTransform, Load, Store, BeBytes, Quad, Splice, Reversed, Loads;
      var hi, lo := countHi as word, countLo as word;
      StoredWords(data[..], Store(bigEndian, hi), Store(bigEndian, lo));
      assert data[..56] == data[..][..56];
      CopyAt(data, 56, Store(bigEndian, hi));
      CopyAt(data, 60, Store(bigEndian, lo));
      ghost var filled := data[..];
      LongReverse(data, 56, bigEndian, endianness);
      LastBlock(bigEndian, filled, data[..], hi, lo);
      Compress(old(data[..56]) + length);
    }

    /** SHAtoByte */
    method ToBytes() returns (output: seq<byte>)
      requires Shape()
      ensures output == Output(Sha1.Value(digest[..]))
    {
      hide BeBytes;
      output := [];
      var i := 0;
      while i < 5
        invariant 0 <= i <= 5
        invariant output == Output(Sha1.Value(digest[..]))[..4 * i]
      {
        output := output + BeBytes(digest[i]);
        i := i + 1;
      }
    }

    /** SHAFinal */
    method Final() returns (output: seq<byte>)
      requires Valid()
      modifies digest, data
      ensures output == Hash(fed)
    {
      hide BlockTransform, Fold, Rest, Counts, Output, Length, LengthWords, Padded, BeBytes, Zeros, Sha1.Value;
      PaddedFold(BlockTransform, INIT, fed, Length(|fed|));
      CountWords(countLo, countHi, |fed|);
      Pad();
      FinalBlock(Length(|fed|));
      assert Sha1.Value(digest[..]) == Fold(BlockTransform, INIT, Padded(fed, Length(|fed|)));
      output := ToBytes();
      // sizeof(shsInfo) is the size of a pointer, so memset clears one word of the context
      digest[0] := 0;
    }
  }

  // ----- whole messages and HMAC

  /** However a message is cut into Update calls, on either kind of machine, the digest is that of the whole. */
  method HashChunks(bigEndian: bool, chunks: seq<seq<byte>>) returns (digest: seq<byte>)
    requires forall i :: 0 <= i < |chunks| ==> |chunks[i]| < 0x8000_0000
    ensures digest == Hash(Flatten(chunks))
  {
    hide Hash, ShaContext.Valid;
    var context := new ShaContext(bigEndian);
    var i := 0;
    while i < |chunks|
      invariant 0 <= i <= |chunks|
      invariant context.Valid() && context.fed == Flatten(chunks[..i])
      invariant fresh(context.digest) && fresh(context.data)
    {
      assert chunks[..i + 1] == chunks[..i] + [chunks[i]];
      FlattenAppend(chunks[..i], chunks[i]);
      context.Update(chunks[i]);
      i := i + 1;
    }
    assert chunks[..i] == chunks;
    digest := context.Final();
  }

  function XorPad(k: seq<byte>, v: byte): (r: seq<byte>)
    ensures |r| == |k|
  {
    seq(|k|, i requires 0 <= i < |k| => k[i] ^ v)
  }

  /** The key as a block: hashed when longer than a block, then zero-filled (section 2 of RFC 2104). */
  function KeyBlock(key: seq<byte>): (k: seq<byte>)
    ensures |k| == 64
  {
    var short := if |key| > 64 then Hash(key) else key;
    short + Zeros(64 - |short|)
  }

  /** HMAC as section 2 of RFC 2104 defines it. */
  function Hmac(key: seq<byte>, text: seq<byte>): (digest: seq<byte>)
    ensures |digest| == 20
  {
    Hash(XorPad(KeyBlock(key), 0x5c) + Hash(XorPad(KeyBlock(key), 0x36) + text))
  }

  /** A long key stands for its hash, and a key that fits in a block for the same key with zeros behind it. */
  lemma HmacKeys(key: seq<byte>, n: nat, text: seq<byte>)
    ensures |key| > 64 ==> Hmac(key, text) == Hmac(Hash(key), text)
    ensures |key| + n <= 64 ==> Hmac(key + Zeros(n), text) == Hmac(key, text)
  {
    hide Hash;
    if |key| > 64 {
      assert KeyBlock(Hash(key)) == KeyBlock(key);
    } else if |key| + n <= 64 {
      assert KeyBlock(key + Zeros(n)) == KeyBlock(key);
    }
  }

  method XorPads(kIpad: array<byte>, kOpad: array<byte>)
    requires kIpad.Length == 65 && kOpad.Length == 65 && kIpad != kOpad
    modifies kIpad, kOpad
    ensures kIpad[..64] == XorPad(old(kIpad[..64]), 0x36) && kOpad[..64] == XorPad(old(kOpad[..64]), 0x5c)
  {
    var i := 0;
    while i < 64
      invariant 0 <= i <= 64
      invariant forall j :: 0 <= j < 64 ==> kIpad[j] == if j < i then old(kIpad[j]) ^ 0x36 else old(kIpad[j])
      invariant forall j :: 0 <= j < 64 ==> kOpad[j] == if j < i then old(kOpad[j]) ^ 0x5c else old(kOpad[j])
    {
      kIpad[i] := kIpad[i] ^ 0x36;
      kOpad[i] := kOpad[i] ^ 0x5c;
      i := i + 1;
    }
  }

  /** The key preparation both HMAC functions start with. */
  method MakePads(bigEndian: bool, key: seq<byte>) returns (ipad: seq<byte>, opad: seq<byte>)
    requires |key| < 0x8000_0000
    ensures ipad == XorPad(KeyBlock(key), 0x36) && opad == XorPad(KeyBlock(key), 0x5c)
  {
    hide Hash, ShaContext.Valid;
    var short := key;
    if |key| > 64 {
      var tctx := new ShaContext(bigEndian);
      tctx.Update(key);
      assert [] + key == key;
      short := tctx.Final();
    }
    var kIpad := new byte[65](i => 0);
    var kOpad := new byte[65](i => 0);
    CopyAt(kIpad, 0, short);
    CopyAt(kOpad, 0, short);
    assert kIpad[..64] == KeyBlock(key) && kOpad[..64] == KeyBlock(key);
    XorPads(kIpad, kOpad);
    ipad, opad := kIpad[..64], kOpad[..64];
  }

  /** The second pass of both. */
  method Outer(bigEndian: bool, opad: seq<byte>, inner: seq<byte>) returns (digest: seq<byte>)
    requires |opad| == 64 && |inner| == 20
    ensures digest == Hash(opad + inner)
  {
    hide Hash, ShaContext.Valid;
    var context := new ShaContext(bigEndian);
    context.Update(opad);
    context.Update(inner);
    assert [] + opad + inner == opad + inner;
    digest := context.Final();
  }

  /** hmac_sha */
  method HmacSha(bigEndian: bool, text: seq<byte>, key: seq<byte>) returns (digest: seq<byte>)
    requires |text| < 0x8000_0000 && |key| < 0x8000_0000
    ensures digest == Hmac(key, text)
  {
    hide Hash, ShaContext.Valid, XorPad, KeyBlock;
    var ipad, opad := MakePads(bigEndian, key);
    var context := new ShaContext(bigEndian);
    context.Update(ipad);
    context.Update(text);
    assert [] + ipad + text == ipad + text;
    var inner := context.Final();
    digest := Outer(bigEndian, opad, inner);
  }

  /** hmac_sha2: the HMAC of a list of texts is that of their concatenation. */
  method HmacSha2(bigEndian: bool, texts: seq<seq<byte>>, key: seq<byte>) returns (digest: seq<byte>)
    requires |key| < 0x8000_0000 && forall i :: 0 <= i < |texts| ==> |texts[i]| < 0x8000_0000
    ensures digest == Hmac(key, Flatten(texts))
  {
    hide Hash, ShaContext.Valid, XorPad, KeyBlock;
    var ipad, opad := MakePads(bigEndian, key);
    var context := new ShaContext(bigEndian);
    context.Update(ipad);
    var i := 0;
    while i < |texts|
      invariant 0 <= i <= |texts|
      invariant context.Valid() && context.fed == ipad + Flatten(texts[..i])
      invariant fresh(context.digest) && fresh(context.data)
    {
      assert texts[..i + 1] == texts[..i] + [texts[i]];
      FlattenAppend(texts[..i], texts[i]);
      assert ipad + Flatten(texts[..i]) + texts[i] == ipad + Flatten(texts[..i + 1]);
      context.Update(texts[i]);
      i := i + 1;
    }
    assert texts[..i] == texts;
    var inner := context.Final();
    digest := Outer(bigEndian, opad, inner);
  }
}
