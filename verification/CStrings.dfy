/** Terminated strings in buffers of any element type. */
module CStrings {
  /** What comes before the first terminator, or the whole buffer. */
  function CString<T(==)>(buf: seq<T>, nul: T): (s: seq<T>)
    ensures nul !in s && |s| <= |buf|
    ensures s == buf[..|s|] && (|s| < |buf| ==> buf[|s|] == nul)
  {
    if buf == [] || buf[0] == nul then [] else [buf[0]] + CString(buf[1..], nul)
  }

  /** The terminator's position determines the string. */
  lemma {:induction false} TerminatedAt<T>(buf: seq<T>, nul: T, n: nat)
    requires n < |buf| && buf[n] == nul && nul !in buf[..n]
    ensures CString(buf, nul) == buf[..n]
    decreases n
  {
    if n > 0 {
      assert buf[0] == buf[..n][0];
      assert buf[..n] == [buf[0]] + buf[1..][..n - 1];
      TerminatedAt(buf[1..], nul, n - 1);
    }
  }
}
