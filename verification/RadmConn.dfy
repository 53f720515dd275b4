/** A connection that has not said yet whose it is: radmconn with its 256-byte buffer and its cipher. */
module RadmConn {
  import opened Bytes
  import opened CStrings
  import opened Rc4
  import opened Header

  /** Zeros behind a text change neither its tag nor the string in it. */
  lemma Padded(buf: seq<byte>, text: seq<byte>, tag: seq<byte>)
    requires |buf| == HEADERSIZE && |text| < HEADERSIZE && text == buf[..|text|] && |tag| == 8 && 0 !in tag
    requires forall i :: |text| <= i < HEADERSIZE ==> buf[i] == 0
    ensures tag <= buf <==> tag <= text
    ensures tag <= text ==> CString(buf[8..], 0) == CString(text[8..], 0)
  {
    if |text| < 8 {
      assert buf[|text|] == 0 && tag[|text|] in tag;
    }
    if tag <= text {
      var s := CString(text[8..], 0);
      assert s == text[8..][..|s|] == buf[8..][..|s|];
      assert buf[8..][|s|] == 0;
      TerminatedAt(buf[8..], 0, |s|);
    }
  }

  class Connection {
    const sock: int
    const rc4Dec: Rc4State
    const buf: array<byte>
    var buflen: nat
    /** The names its device and its cipher's cell have in the registry. */
    const device: nat
    const cell: nat

    /** Beyond what was received the buffer is as memset left it. */
    ghost predicate Valid()
      reads this, rc4Dec, buf
    {
      && rc4Dec.Valid()
      && buf.Length == HEADERSIZE && buflen <= HEADERSIZE && buf as object != rc4Dec.m
      && forall i :: buflen <= i < HEADERSIZE ==> buf[i] == 0
    }

    /** What was received and deciphered. */
    ghost function Line(): seq<byte>
      requires Valid()
      reads this, rc4Dec, buf
    {
      buf[..buflen]
    }

    /** malloc, memset and rc4_setup of radmsrv_accept_callback. */
    constructor (sock: int, key: seq<U8>, device: nat, cell: nat)
      ensures Valid() && fresh(buf) && fresh(rc4Dec) && fresh(rc4Dec.m)
      ensures this.sock == sock && this.device == device && this.cell == cell
      ensures Line() == [] && rc4Dec.View() == Initial(key)
    {
      this.sock, this.device, this.cell := sock, device, cell;
      rc4Dec := new Rc4State(key);
      buf := new byte[HEADERSIZE](i => 0);
      buflen := 0;
    }

    /** recv into the rest of the buffer, and rc4_crypt where it landed. */
    method Receive(received: seq<byte>)
      requires Valid() && buflen + |received| <= HEADERSIZE
      modifies this`buflen, buf, rc4Dec, rc4Dec.m
      ensures Valid()
      ensures Line() == old(Line()) + Crypt(old(rc4Dec.View()), received)
      ensures rc4Dec.View() == Advance(old(rc4Dec.View()), |received|)
    {
      hide Crypt, Advance;
      CopyAt(buf, buflen, received);
      assert buf[buflen..buflen + |received|] == received;
      rc4Dec.CryptInPlace(buf, buflen, |received|);
      buflen := buflen + |received|;
    }

    /** strncmp of the buffer with an 8-character tag. */
    method StartsWith(tag: seq<byte>) returns (yes: bool)
      requires Valid() && |tag| == 8
      ensures yes <==> tag <= buf[..]
    {
      var i := 0;
      while i < 8
        invariant 0 <= i <= 8 && tag[..i] == buf[..i]
      {
        if buf[i] != tag[i] {
          return false;
        }
        i := i + 1;
      }
      yes := true;
    }

    /** The C string behind the tag. */
    method StringAt8() returns (s: seq<byte>)
      requires Valid() && buf[HEADERSIZE - 1] == 0
      ensures s == CString(buf[8..], 0)
    {
      var n := 0;
      while buf[8 + n] != 0
        invariant 8 + n < HEADERSIZE && 0 !in buf[8..8 + n]
        decreases HEADERSIZE - n
      {
        n := n + 1;
      }
      assert buf[8..][..n] == buf[8..8 + n];
      TerminatedAt(buf[8..], 0, n);
      s := buf[8..8 + n];
    }

    /** What radmsrv_conn_callback makes of the bytes received so far; the newline is overwritten. */
    method Understand() returns (v: Verdict)
      requires Valid() && buflen > 0
      modifies buf
      ensures v == Judge(old(Line()))
      ensures v.More? ==> buf[..] == old(buf[..])
    {
      ghost var line := Line();
      ghost var text := line[..buflen - 1];
      if buf[buflen - 1] != NEWLINE {
        return More;
      }
      buf[buflen - 1] := 0;
      assert buf[..buflen - 1] == text;
      Padded(buf[..], text, RADMIN_TAG);
      Padded(buf[..], text, RLOGIN_TAG);
      Padded(buf[..], text, TELNET_TAG);
      hide CString;
      var radmin := StartsWith(RADMIN_TAG);
      var rlogin := StartsWith(RLOGIN_TAG);
      var telnet := StartsWith(TELNET_TAG);
      if !radmin && !rlogin && !telnet {
        return Refuse;
      }
      var id := StringAt8();
      v := Accept(if radmin then Radmin else if rlogin then Rlogin else Telnet, id);
    }
  }
}
