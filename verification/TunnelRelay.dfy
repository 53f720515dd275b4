/**
 * The relaying actions of a tunnel are the callbacks of the relay objects at its two ends: each
 * callback, with what the kernel hands it and takes from it, is the action of that name.
 */
module TunnelRelay {
  import opened Bytes
  import opened Rc4
  import opened Relay
  import T = Tunnel

  /** The relay object on the server holds the server's two halves. */
  ghost predicate AtServer(fwd: Fwd, w: T.World)
    reads fwd, fwd.rc4Dec, fwd.rc4Enc, fwd.rc4Dec.m, fwd.rc4Enc.m, fwd.tbuf, fwd.pbuf
  {
    fwd.Valid() && w.server.Forwarding? && fwd.TDir() == w.up.dst && fwd.PDir() == w.down.src
  }

  /** The relay object on the device holds the device's. */
  ghost predicate AtDevice(fwd: Fwd, w: T.World)
    reads fwd, fwd.rc4Dec, fwd.rc4Enc, fwd.rc4Dec.m, fwd.rc4Enc.m, fwd.tbuf, fwd.pbuf
  {
    fwd.Valid() && w.device.Busy? && fwd.PDir() == w.up.src && fwd.TDir() == w.down.dst
  }

  /** What send took of what it was given. */
  function Taken(sendResult: int): nat {
    if sendResult < 0 then 0 else sendResult
  }

  /** What is sent of kept bytes, in numbers. */
  lemma Sends(w: T.World, n: nat)
    ensures w.server.Forwarding? && n <= |w.up.dst.pending| ==>
              T.Step(w, T.UpDeliver(n)) == w.(up := T.Pipe(w.up.src, w.up.channel, w.up.dst.Drain(n), w.up.read,
                                                           w.up.delivered + w.up.dst.pending[..n]))
    ensures w.server.Forwarding? && n <= |w.down.src.pending| ==>
              T.Step(w, T.DownFlush(n)) == w.(down := T.Pipe(w.down.src.Drain(n), w.down.channel + w.down.src.pending[..n],
                                                             w.down.dst, w.down.read, w.down.delivered))
    ensures w.device.Busy? && n <= |w.up.src.pending| ==>
              T.Step(w, T.UpFlush(n)) == w.(up := T.Pipe(w.up.src.Drain(n), w.up.channel + w.up.src.pending[..n],
                                                         w.up.dst, w.up.read, w.up.delivered))
    ensures w.device.Busy? && n <= |w.down.dst.pending| ==>
              T.Step(w, T.DownDeliver(n)) == w.(down := T.Pipe(w.down.src, w.down.channel, w.down.dst.Drain(n), w.down.read,
                                                               w.down.delivered + w.down.dst.pending[..n]))
  {
  }

  /** tsock_read_callback on the server: recv gave the next bytes from the wire. */
  method ServerReadsTunnel(fwd: Fwd, ghost w: T.World, received: seq<byte>, sendResult: int) returns (sent: seq<byte>, ghost v: T.World)
    requires AtServer(fwd, w) && TRead in fwd.registered
    requires received != [] && received <= w.up.channel && |received| <= BUFSIZE && sendResult <= |received|
    modifies fwd, fwd.tbuf, fwd.rc4Dec, fwd.rc4Dec.m
    ensures v == T.Step(w, T.UpReceive(|received|, Taken(sendResult))) && AtServer(fwd, v)
    ensures v.up.delivered == w.up.delivered + sent && w.up.channel == received + v.up.channel
  {
    hide Crypt, Advance;
    v := T.Step(w, T.UpReceive(|received|, Taken(sendResult)));
    assert received == w.up.channel[..|received|];
    sent := fwd.TsockReadCallback(received, sendResult, true);
  }

  /** psock_write_callback on the server. */
  method ServerWritesBrowser(fwd: Fwd, ghost w: T.World, sendResult: nat) returns (sent: seq<byte>, ghost v: T.World)
    requires AtServer(fwd, w) && PWrite in fwd.registered && sendResult <= |w.up.dst.pending|
    modifies fwd
    ensures v == T.Step(w, T.UpDeliver(sendResult)) && AtServer(fwd, v)
    ensures v.up.delivered == w.up.delivered + sent
  {
    hide T.Step;
    Sends(w, sendResult);
    v := T.Step(w, T.UpDeliver(sendResult));
    sent := fwd.PsockWriteCallback(sendResult);
  }

  /** psock_read_callback on the server: recv gave a chunk. */
  method ServerReadsBrowser(fwd: Fwd, ghost w: T.World, chunk: seq<byte>, sendResult: int) returns (sent: seq<byte>, ghost v: T.World)
    requires AtServer(fwd, w) && PRead in fwd.registered
    requires chunk != [] && |chunk| <= BUFSIZE && sendResult <= |chunk|
    modifies fwd, fwd.pbuf, fwd.rc4Enc, fwd.rc4Enc.m
    ensures v == T.Step(w, T.DownTake(chunk, Taken(sendResult))) && AtServer(fwd, v)
    ensures v.down.read == w.down.read + chunk && v.down.channel == w.down.channel + sent
  {
    hide Crypt, Advance;
    v := T.Step(w, T.DownTake(chunk, Taken(sendResult)));
    sent := fwd.PsockReadCallback(chunk, sendResult, true);
  }

  /** tsock_write_callback on the server. */
  method ServerWritesTunnel(fwd: Fwd, ghost w: T.World, sendResult: nat) returns (sent: seq<byte>, ghost v: T.World)
    requires AtServer(fwd, w) && TWrite in fwd.registered && sendResult <= |w.down.src.pending|
    modifies fwd
    ensures v == T.Step(w, T.DownFlush(sendResult)) && AtServer(fwd, v)
    ensures v.down.channel == w.down.channel + sent
  {
    hide T.Step;
    Sends(w, sendResult);
    v := T.Step(w, T.DownFlush(sendResult));
    sent := fwd.TsockWriteCallback(sendResult);
  }

  /** psock_read_callback on the device: recv gave a chunk. */
  method DeviceReadsService(fwd: Fwd, ghost w: T.World, chunk: seq<byte>, sendResult: int) returns (sent: seq<byte>, ghost v: T.World)
    requires AtDevice(fwd, w) && PRead in fwd.registered
    requires chunk != [] && |chunk| <= BUFSIZE && sendResult <= |chunk|
    modifies fwd, fwd.pbuf, fwd.rc4Enc, fwd.rc4Enc.m
    ensures v == T.Step(w, T.UpTake(chunk, Taken(sendResult))) && AtDevice(fwd, v)
    ensures v.up.read == w.up.read + chunk && v.up.channel == w.up.channel + sent
  {
    hide Crypt, Advance;
    v := T.Step(w, T.UpTake(chunk, Taken(sendResult)));
    sent := fwd.PsockReadCallback(chunk, sendResult, true);
  }

  /** tsock_write_callback on the device. */
  method DeviceWritesTunnel(fwd: Fwd, ghost w: T.World, sendResult: nat) returns (sent: seq<byte>, ghost v: T.World)
    requires AtDevice(fwd, w) && TWrite in fwd.registered && sendResult <= |w.up.src.pending|
    modifies fwd
    ensures v == T.Step(w, T.UpFlush(sendResult)) && AtDevice(fwd, v)
    ensures v.up.channel == w.up.channel + sent
  {
    hide T.Step;
    Sends(w, sendResult);
    v := T.Step(w, T.UpFlush(sendResult));
    sent := fwd.TsockWriteCallback(sendResult);
  }

  /** tsock_read_callback on the device: recv gave the next bytes from the wire. */
  method DeviceReadsTunnel(fwd: Fwd, ghost w: T.World, received: seq<byte>, sendResult: int) returns (sent: seq<byte>, ghost v: T.World)
    requires AtDevice(fwd, w) && TRead in fwd.registered
    requires received != [] && received <= w.down.channel && |received| <= BUFSIZE && sendResult <= |received|
    modifies fwd, fwd.tbuf, fwd.rc4Dec, fwd.rc4Dec.m
    ensures v == T.Step(w, T.DownReceive(|received|, Taken(sendResult))) && AtDevice(fwd, v)
    ensures v.down.delivered == w.down.delivered + sent && w.down.channel == received + v.down.channel
  {
    hide Crypt, Advance;
    v := T.Step(w, T.DownReceive(|received|, Taken(sendResult)));
    assert received == w.down.channel[..|received|];
    sent := fwd.TsockReadCallback(received, sendResult, true);
  }

  /** psock_write_callback on the device. */
  method DeviceWritesService(fwd: Fwd, ghost w: T.World, sendResult: nat) returns (sent: seq<byte>, ghost v: T.World)
    requires AtDevice(fwd, w) && PWrite in fwd.registered && sendResult <= |w.down.dst.pending|
    modifies fwd
    ensures v == T.Step(w, T.DownDeliver(sendResult)) && AtDevice(fwd, v)
    ensures v.down.delivered == w.down.delivered + sent
  {
    hide T.Step;
    Sends(w, sendResult);
    v := T.Step(w, T.DownDeliver(sendResult));
    sent := fwd.PsockWriteCallback(sendResult);
  }
}
