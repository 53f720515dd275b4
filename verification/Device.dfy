/**
 * The device side before a relay starts: dial the server, send the enciphered greeting, wait;
 * hand the connection to a relay when the server sends data, and dial again.
 *
 * The system calls are parameters: which descriptor a socket call returns (None is a failure)
 * and whether connect and send succeed.
 */
module Device {
  import opened Bytes
  import opened Rc4
  import opened Relay
  import opened Header
  import Tunnel

  /** What dialling the server meets. */
  datatype Dial = Dial(sock: Option<int>, connected: bool, sent: bool)

  /** The two relay halves a tunnel starts with on the device: one cipher past the greeting, one untouched. */
  lemma StartHalves(key: seq<U8>, isRadmin: bool, id: seq<byte>)
    ensures var w := Tunnel.Start(key, isRadmin, id);
            && w.up.src == Half(Advance(Initial(key), |Greeting(isRadmin, id)|), [])
            && w.up.channel == Crypt(Initial(key), Greeting(isRadmin, id))
            && w.down.dst == Half(Initial(key), [])
  {
    hide Crypt, Initial, Greeting;
  }

  class Radmc {
    const key: seq<U8>
    const id: seq<byte>
    const isRadmin: bool
    /** The connection that waits for the server; -1 when there is none. */
    var sock: int
    var rc4Enc: Rc4State?
    /** radmc_callback is registered for sock. */
    var registered: bool
    var timerArmed: bool
    /** The process has exited. */
    var exited: bool
    /** The open descriptors of the process. */
    var open: set<int>

    /** The cipher of a waiting connection has moved past the greeting. */
    ghost predicate PastGreeting(c: Cipher) {
      c == Advance(Initial(key), |Greeting(isRadmin, id)|)
    }

    /** A running device always has a connection waiting, with its own cipher, callback and timer. */
    ghost predicate Valid()
      reads this, rc4Enc, if rc4Enc != null then {rc4Enc.m} else {}
    {
      && GoodId(id)
      && (!exited ==>
            && sock > 0 && sock in open && registered && timerArmed
            && rc4Enc != null && rc4Enc.Valid() && PastGreeting(rc4Enc.View()))
    }

    /** radmc_reset */
    method Reset()
      modifies this`sock, this`rc4Enc, this`registered, this`open
      ensures rc4Enc == null && !registered
      ensures open == (if old(sock) > 0 then old(open) - {old(sock)} else old(open))
      ensures sock == if old(sock) > 0 then -1 else old(sock)
    {
      rc4Enc := null;
      registered := false;
      if sock > 0 {
        open := open - {sock};
        sock := -1;
      }
    }

    /** sprintf of the greeting into the 256-byte buffer. */
    method PrintGreeting(buf: array<byte>) returns (res: nat)
      requires buf.Length == HEADERSIZE && GoodId(id)
      modifies buf
      ensures res == |Greeting(isRadmin, id)| && res <= HEADERSIZE && buf[..res] == Greeting(isRadmin, id)
    {
      var text := Greeting(isRadmin, id);
      CopyAt(buf, 0, text);
      res := |text|;
    }

    /** radmc_reconnect: returns the bytes put on the wire; every failure ends the process. */
    method Reconnect(dial: Dial) returns (wire: seq<byte>)
      requires GoodId(id) && !exited
      requires dial.sock.Some? ==> dial.sock.value > 0 && dial.sock.value !in open
      modifies this`sock, this`rc4Enc, this`registered, this`timerArmed, this`exited, this`open
      ensures Valid()
      ensures exited <==> dial.sock.None? || !dial.connected || !dial.sent
      ensures exited ==> open == old(open)
      ensures !exited ==>
                && sock == dial.sock.value && open == old(open) + {sock}
                && fresh(rc4Enc) && fresh(rc4Enc.m)
                && wire == Crypt(Initial(key), Greeting(isRadmin, id))
    {
      hide Crypt, Initial, Greeting;
      wire := [];
      if dial.sock.None? {
        exited := true;
        return;
      }
      open := open + {dial.sock.value};
      if !dial.connected {
        open := open - {dial.sock.value};
        exited := true;
        return;
      }
      sock := dial.sock.value;
      var enc := new Rc4State(key);
      rc4Enc := enc;
      var buf := new byte[HEADERSIZE](i => 0);
      var res := PrintGreeting(buf);
      assert buf[0..0 + res] == Greeting(isRadmin, id);
      enc.CryptInPlace(buf, 0, res);
      if !dial.sent {
        Reset();
        exited := true;
        return;
      }
      wire := buf[..res];
      registered := true;
      timerArmed := true;
    }

    /** radmc_timeout_callback: drop the waiting connection and dial again. */
    method TimeoutCallback(dial: Dial) returns (wire: seq<byte>)
      requires Valid() && !exited
      requires dial.sock.Some? ==> dial.sock.value > 0 && dial.sock.value !in open - {sock}
      modifies this
      ensures Valid()
      ensures exited <==> dial.sock.None? || !dial.connected || !dial.sent
      ensures exited ==> open == old(open) - {old(sock)}
      ensures !exited ==>
                && sock == dial.sock.value && open == old(open) - {old(sock)} + {sock} && fresh(rc4Enc) && fresh(rc4Enc.m)
                && wire == Crypt(Initial(key), Greeting(isRadmin, id))
    {
      hide Crypt, Initial, Greeting;
      Reset();
      wire := Reconnect(dial);
    }

    /** The connection goes to a relay exactly when data can be read and the local service is reached. */
    static predicate Relays(error: bool, peeked: int, local: Option<int>, localConnected: bool) {
      !error && peeked > 0 && local.Some? && localConnected
    }

    /**
     * radmc_callback: data (or an error) arrived on the waiting connection.  `peeked` is what the
     * peeking recv returned, `local` the socket for the local service.
     */
    method Callback(error: bool, peeked: int, local: Option<int>, localConnected: bool, dial: Dial)
      returns (fwd: Fwd?, wire: seq<byte>)
      requires Valid() && !exited
      requires local.Some? ==> local.value > 0 && local.value !in open
      requires dial.sock.Some? ==> dial.sock.value > 0 && dial.sock != local
                                   && dial.sock.value !in (if Relays(error, peeked, local, localConnected) then open else open - {sock})
      modifies this
      ensures Valid()
      ensures fwd != null <==> Relays(error, peeked, local, localConnected)
      ensures exited <==> dial.sock.None? || !dial.connected || !dial.sent
      ensures exited ==> open == if fwd != null then old(open) + {local.value} else old(open) - {old(sock)}
      ensures !exited ==>
                && sock == dial.sock.value
                && open == (if fwd != null then old(open) + {local.value} else old(open) - {old(sock)}) + {sock}
                && fresh(rc4Enc) && fresh(rc4Enc.m)
                && wire == Crypt(Initial(key), Greeting(isRadmin, id))
      ensures fwd != null ==>
                && fresh(fwd) && fwd.Valid() && !fwd.released
                && fwd.tsock == old(sock) && fwd.psock == local.value
                && fwd.rc4Enc == old(rc4Enc) && fresh(fwd.rc4Dec)
                && fwd.PDir() == Tunnel.Start(key, isRadmin, id).up.src
                && fwd.TDir() == Tunnel.Start(key, isRadmin, id).down.dst
    {
      hide Crypt, Initial, Greeting;
      StartHalves(key, isRadmin, id);
      fwd := null;
      if error || peeked <= 0 {
        Reset();
      } else {
        registered := false;
        if local.None? {
          Reset();
        } else if !localConnected {
          Reset();
        } else {
          open := open + {local.value};
          var dec := new Rc4State(key);
          fwd := new Fwd(sock, local.value, rc4Enc, dec);
        }
      }
      wire := Reconnect(dial);
    }
  }
}
