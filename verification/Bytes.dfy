/** Bytes and the few sequence facts that every component shares. */
module Bytes {
  type byte = bv8  // where the bits matter
  type U8 = n: int | 0 <= n < 256  // where the number does

  datatype Option<+T> = None | Some(value: T)

  /** A byte buffer after `data` was copied to offset `at` (C's memcpy). */
  function Splice<T>(buf: seq<T>, at: nat, data: seq<T>): (r: seq<T>)
    requires at + |data| <= |buf|
    ensures |r| == |buf|
    ensures forall k :: 0 <= k < |buf| ==> r[k] == if at <= k < at + |data| then data[k - at] else buf[k]
  {
    buf[..at] + data + buf[at + |data|..]
  }

  lemma SliceOfSlice<T>(s: seq<T>, from: nat, to: nat, i: nat, j: nat)
    requires from <= to <= |s| && i <= j <= to - from
    ensures s[from..to][i..j] == s[from + i..from + j]
  {
    var t, u := s[from..to][i..j], s[from + i..from + j];
    assert |t| == |u| && forall k :: 0 <= k < |t| ==> t[k] == u[k];
  }

  /** The concatenation of all chunks of a stream. */
  function Flatten(chunks: seq<seq<byte>>): seq<byte> {
    if chunks == [] then [] else chunks[0] + Flatten(chunks[1..])
  }

  lemma {:induction false} FlattenAppend(chunks: seq<seq<byte>>, chunk: seq<byte>)
    ensures Flatten(chunks + [chunk]) == Flatten(chunks) + chunk
    decreases |chunks|
  {
    if chunks != [] {
      FlattenAppend(chunks[1..], chunk);
      assert (chunks + [chunk])[1..] == chunks[1..] + [chunk];
    }
  }

  /** memcpy(buf + at, data, |data|) */
  method CopyAt(buf: array<byte>, at: nat, data: seq<byte>)
    requires at + |data| <= buf.Length
    modifies buf
    ensures buf[..] == Splice(old(buf[..]), at, data)
  {
    forall i | 0 <= i < |data| {
      buf[at + i] := data[i];
    }
  }
}
