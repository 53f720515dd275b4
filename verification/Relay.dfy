/**
 * The byte relay between the tunnel socket (tsock, encrypted side) and the plain
 * socket (psock).  radmcli/fwd.c and radmsrv/fwd.c hold the same state machine.
 *
 * The kernel is a parameter: each callback is told which bytes recv returned (none
 * stands for end of stream or an error) and what send returned.
 */
module Relay {
  import opened Bytes
  import opened Rc4

  const BUFSIZE: nat := 512

  /** One direction of a relay: its cipher and the bytes read but not yet sent. */
  datatype Half = Half(cipher: Cipher, pending: seq<byte>) {

    /** A chunk was read and translated, and the kernel took the first n bytes of it. */
    function Read(chunk: seq<byte>, n: nat): Half
      requires n <= |chunk|
    {
      Half(Advance(cipher, |chunk|), Crypt(cipher, chunk)[n..])
    }

    /** The kernel took n more of the pending bytes. */
    function Drain(n: nat): Half
      requires n <= |pending|
    {
      Half(cipher, pending[n..])
    }
  }

  datatype Handler = TRead | PWrite | PRead | TWrite

  /** The received bytes land in the buffer and are translated there. */
  method Fill(buf: array<byte>, cipher: Rc4State, received: seq<byte>)
    requires cipher.Valid() && buf as object != cipher.m
    requires |received| <= buf.Length
    modifies buf, cipher, cipher.m
    ensures cipher.Valid()
    ensures cipher.View() == Advance(old(cipher.View()), |received|)
    ensures buf[..|received|] == Crypt(old(cipher.View()), received)
  {
    hide Crypt, Advance;
    forall i | 0 <= i < |received| {
      buf[i] := received[i];
    }
    assert buf[0..0 + |received|] == received;
    cipher.CryptInPlace(buf, 0, |received|);
  }

  class Fwd {
    const tsock: int
    const psock: int
    const rc4Dec: Rc4State
    const rc4Enc: Rc4State

    const tbuf: array<byte>
    var tbuflen: nat
    var tbufpos: nat

    const pbuf: array<byte>
    var pbuflen: nat
    var pbufpos: nat

    /** The callbacks of this relay that the poll table holds. */
    var registered: set<Handler>
    /** The descriptors and cipher states the relay still holds. */
    var open: set<int>
    var ciphers: set<Rc4State>
    /** fwd_release has closed both sockets and freed the state. */
    var released: bool

    ghost predicate Shape()
      reads this, rc4Dec, rc4Enc
    {
      && rc4Dec.Valid() && rc4Enc.Valid()
      && rc4Dec != rc4Enc && rc4Dec.m != rc4Enc.m
      && tbuf.Length == BUFSIZE && pbuf.Length == BUFSIZE && tbuf != pbuf
      && tbuf as object !in {rc4Dec.m, rc4Enc.m} && pbuf as object !in {rc4Dec.m, rc4Enc.m}
      && tbufpos <= tbuflen <= BUFSIZE
      && pbufpos <= pbuflen <= BUFSIZE
    }

    /** Flow control: each direction waits to read with an empty buffer or waits to write the rest of a full one. */
    ghost predicate Valid()
      reads this, rc4Dec, rc4Enc
    {
      && Shape()
      && (released ==> registered == {} && open == {} && ciphers == {})
      && (!released ==>
            && open == {tsock, psock} && ciphers == {rc4Dec, rc4Enc}
            && (TRead in registered <==> PWrite !in registered)
            && (PRead in registered <==> TWrite !in registered)
            && (if TRead in registered then tbufpos == tbuflen == 0 else tbufpos < tbuflen)
            && (if PRead in registered then pbufpos == pbuflen == 0 else pbufpos < pbuflen))
    }

    /** From the tunnel to the plain socket, deciphering. */
    ghost function TDir(): (h: Half)
      requires Shape()
      reads this, rc4Dec, rc4Enc, rc4Dec.m, tbuf
    {
      Half(rc4Dec.View(), tbuf[tbufpos..tbuflen])
    }

    /** From the plain socket to the tunnel, enciphering. */
    ghost function PDir(): (h: Half)
      requires Shape()
      reads this, rc4Dec, rc4Enc, rc4Enc.m, pbuf
    {
      Half(rc4Enc.View(), pbuf[pbufpos..pbuflen])
    }

    /** do_forward: takes over two sockets and two cipher states. */
    constructor (tsock: int, psock: int, enc: Rc4State, dec: Rc4State)
      requires enc.Valid() && dec.Valid() && enc != dec && enc.m != dec.m
      ensures Valid() && fresh(tbuf) && fresh(pbuf)
      ensures this.tsock == tsock && this.psock == psock && rc4Enc == enc && rc4Dec == dec
      ensures !released && registered == {TRead, PRead}
      ensures TDir() == Half(dec.View(), []) && PDir() == Half(enc.View(), [])
    {
      this.tsock, this.psock := tsock, psock;
      rc4Enc, rc4Dec := enc, dec;
      tbuf := new byte[BUFSIZE](i => 0);
      pbuf := new byte[BUFSIZE](i => 0);
      tbuflen, tbufpos, pbuflen, pbufpos := 0, 0, 0, 0;
      released := false;
      registered := {TRead, PRead};
      open, ciphers := {tsock, psock}, {dec, enc};
    }

    /** fwd_release */
    method Release()
      requires Shape() && open == {tsock, psock} && ciphers == {rc4Dec, rc4Enc}
      modifies this`registered, this`open, this`ciphers, this`released
      ensures Valid() && released
      ensures registered == {} && open == {} && ciphers == {}
    {
      registered := registered - {TRead};
      registered := registered - {TWrite};
      registered := registered - {PRead};
      registered := registered - {PWrite};
      forall h ensures h !in registered {
        match h case TRead => case PWrite => case PRead => case TWrite =>
      }
      ciphers := ciphers - {rc4Dec};
      ciphers := ciphers - {rc4Enc};
      open := open - {tsock};
      open := open - {psock};
      released := true;
    }

    /** recv into tbuf, decipher in place, and try to send at once. */
    method TsockReadCallback(received: seq<byte>, sendResult: int, again: bool) returns (sent: seq<byte>)
      requires Valid() && TRead in registered
      requires |received| <= BUFSIZE && sendResult <= |received|
      modifies this, tbuf, rc4Dec, rc4Dec.m
      ensures Valid() && PDir() == old(PDir())
      ensures released <==> received == [] || (sendResult < 0 && !again)
      ensures received == [] ==> sent == [] && TDir() == old(TDir())
      ensures received != [] ==>
                var n := if sendResult < 0 then 0 else sendResult;
                && TDir() == old(TDir()).Read(received, n)
                && sent == Crypt(old(TDir()).cipher, received)[..n]
    {
      hide Crypt, Advance;
      sent := [];
      if received == [] {
        Release();
        return;
      }
      Fill(tbuf, rc4Dec, received);
      tbuflen := |received|;
      var res := sendResult;
      if res < 0 {
        if again {
          res := 0;
        } else {
          Release();
          return;
        }
      }
      sent := tbuf[..res];
      tbufpos := res;
      if tbufpos < tbuflen {
        registered := registered - {TRead};
        registered := registered + {PWrite};
      } else {
        tbuflen, tbufpos := 0, 0;
      }
    }

    /** send the rest of tbuf; when it is empty, listen to tsock again. */
    method PsockWriteCallback(sendResult: int) returns (sent: seq<byte>)
      requires Valid() && PWrite in registered
      requires sendResult <= |TDir().pending|
      modifies this
      ensures Valid() && PDir() == old(PDir())
      ensures released <==> sendResult < 0
      ensures sendResult < 0 ==> sent == [] && TDir() == old(TDir())
      ensures sendResult >= 0 ==> TDir() == old(TDir()).Drain(sendResult) && sent == old(TDir()).pending[..sendResult]
    {
      sent := [];
      if sendResult < 0 {
        Release();
        return;
      }
      ghost var pending := TDir().pending;
      sent := tbuf[tbufpos..tbufpos + sendResult];
      assert sent == pending[..sendResult];
      tbufpos := tbufpos + sendResult;
      assert tbuf[tbufpos..tbuflen] == pending[sendResult..];
      if tbufpos == tbuflen {
        tbuflen, tbufpos := 0, 0;
        registered := registered + {TRead};
        registered := registered - {PWrite};
      }
    }

    /** recv into pbuf, encipher in place, and try to send at once. */
    method PsockReadCallback(received: seq<byte>, sendResult: int, again: bool) returns (sent: seq<byte>)
      requires Valid() && PRead in registered
      requires |received| <= BUFSIZE && sendResult <= |received|
      modifies this, pbuf, rc4Enc, rc4Enc.m
      ensures Valid() && TDir() == old(TDir())
      ensures released <==> received == [] || (sendResult < 0 && !again)
      ensures received == [] ==> sent == [] && PDir() == old(PDir())
      ensures received != [] ==>
                var n := if sendResult < 0 then 0 else sendResult;
                && PDir() == old(PDir()).Read(received, n)
                && sent == Crypt(old(PDir()).cipher, received)[..n]
    {
      hide Crypt, Advance;
      sent := [];
      if received == [] {
        Release();
        return;
      }
      Fill(pbuf, rc4Enc, received);
      pbuflen := |received|;
      var res := sendResult;
      if res < 0 {
        if again {
          res := 0;
        } else {
          Release();
          return;
        }
      }
      sent := pbuf[..res];
      pbufpos := res;
      if pbufpos < pbuflen {
        registered := registered - {PRead};
        registered := registered + {TWrite};
      } else {
        pbuflen, pbufpos := 0, 0;
      }
    }

    /** send the rest of pbuf; when it is empty, listen to psock again. */
    method TsockWriteCallback(sendResult: int) returns (sent: seq<byte>)
      requires Valid() && TWrite in registered
      requires sendResult <= |PDir().pending|
      modifies this
      ensures Valid() && TDir() == old(TDir())
      ensures released <==> sendResult < 0
      ensures sendResult < 0 ==> sent == [] && PDir() == old(PDir())
      ensures sendResult >= 0 ==> PDir() == old(PDir()).Drain(sendResult) && sent == old(PDir()).pending[..sendResult]
    {
      sent := [];
      if sendResult < 0 {
        Release();
        return;
      }
      ghost var pending := PDir().pending;
      sent := pbuf[pbufpos..pbufpos + sendResult];
      assert sent == pending[..sendResult];
      pbufpos := pbufpos + sendResult;
      assert pbuf[pbufpos..pbuflen] == pending[sendResult..];
      if pbufpos == pbuflen {
        pbuflen, pbufpos := 0, 0;
        registered := registered + {PRead};
        registered := registered - {TWrite};
      }
    }
  }
}
