/**
 * The tunnel end to end: a device relay and a server relay joined by two FIFO byte
 * channels, from the moment the device has sent its greeting.  A run is any sequence of
 * actions; an action that is not enabled changes nothing, so every schedule, every
 * chunking and every partial send is some run.
 */
module Tunnel {
  import opened Bytes
  import opened Rc4
  import opened Relay
  import opened Header

  /**
   * One direction: the enciphering relay half, the bytes on the wire, the deciphering half,
   * everything read at the near end and everything handed on at the far end.
   */
  datatype Pipe = Pipe(src: Half, channel: seq<byte>, dst: Half, read: seq<byte>, delivered: seq<byte>) {

    /** The near relay reads a chunk and sends its first n bytes. */
    function Take(chunk: seq<byte>, n: nat): Pipe
      requires n <= |chunk|
    {
      this.(src := src.Read(chunk, n), channel := channel + Crypt(src.cipher, chunk)[..n], read := read + chunk)
    }

    /** The near relay sends n pending bytes. */
    function Flush(n: nat): Pipe
      requires n <= |src.pending|
    {
      this.(src := src.Drain(n), channel := channel + src.pending[..n])
    }

    /** The far side receives k bytes and hands on the first n of them. */
    function Receive(k: nat, n: nat): Pipe
      requires n <= k <= |channel|
    {
      this.(channel := channel[k..], dst := dst.Read(channel[..k], n),
            delivered := delivered + Crypt(dst.cipher, channel[..k])[..n])
    }

    /** The far relay hands on n pending bytes. */
    function Deliver(n: nat): Pipe
      requires n <= |dst.pending|
    {
      this.(dst := dst.Drain(n), delivered := delivered + dst.pending[..n])
    }

    /** Bytes enciphered but not yet received. */
    function InFlight(): seq<byte> {
      channel + src.pending
    }

    /**
     * The two ciphers differ by exactly the bytes in flight, and what was read is what was
     * delivered, then what the far buffer holds, then what the far cipher will make of the flight.
     */
    ghost predicate Intact() {
      && src.cipher == Advance(dst.cipher, |InFlight()|)
      && read == delivered + dst.pending + Crypt(dst.cipher, InFlight())
    }
  }

  lemma TakeIntact(p: Pipe, chunk: seq<byte>, n: nat)
    requires p.Intact() && p.src.pending == [] && n <= |chunk|
    ensures p.Take(chunk, n).Intact()
  {
    hide Crypt, Advance;
    var q := p.Take(chunk, n);
    var out := Crypt(p.src.cipher, chunk);
    assert q.InFlight() == p.channel + out && p.InFlight() == p.channel;
    AdvanceAdd(p.dst.cipher, |p.channel|, |chunk|);
    CryptConcat(p.dst.cipher, p.channel, out);
    CryptInverse(p.src.cipher, chunk);
  }

  lemma FlushIntact(p: Pipe, n: nat)
    requires p.Intact() && n <= |p.src.pending|
    ensures p.Flush(n).Intact()
  {
    assert p.Flush(n).InFlight() == p.InFlight();
  }

  lemma ReceiveIntact(p: Pipe, k: nat, n: nat)
    requires p.Intact() && p.dst.pending == [] && n <= k <= |p.channel|
    ensures p.Receive(k, n).Intact()
  {
    hide Crypt, Advance;
    var q := p.Receive(k, n);
    var got := p.channel[..k];
    assert p.InFlight() == got + q.InFlight();
    AdvanceAdd(p.dst.cipher, k, |q.InFlight()|);
    CryptConcat(p.dst.cipher, got, q.InFlight());
    var plain := Crypt(p.dst.cipher, got);
    assert plain == plain[..n] + plain[n..];
  }

  lemma DeliverIntact(p: Pipe, n: nat)
    requires p.Intact() && n <= |p.dst.pending|
    ensures p.Deliver(n).Intact()
  {
    assert p.dst.pending == p.dst.pending[..n] + p.dst.pending[n..];
  }

  // ----- the protocol around the two pipes

  datatype Device = Waiting | Busy | Gone
  /** The server: reading the greeting into a buffer, holding the parked device, relaying, or done. */
  datatype Server = Reading(buf: seq<byte>) | Parked(kind: Kind, id: seq<byte>) | Forwarding | Closed

  datatype World = World(device: Device, server: Server, up: Pipe, down: Pipe)

  datatype Action =
    | ServerReads(n: nat)                      // radmsrv_conn_callback
    | BrowserConnects                          // radmcli_accept_callback
    | ServerFails                              // any close, error or timeout on the server
    | DeviceStarts                             // radmc_callback
    | DeviceFails                              // any close, error or timeout on the device
    | UpTake(chunk: seq<byte>, n: nat)         // device: psock_read_callback
    | UpFlush(n: nat)                          // device: tsock_write_callback
    | UpReceive(k: nat, n: nat)                // server: tsock_read_callback
    | UpDeliver(n: nat)                        // server: psock_write_callback
    | DownTake(chunk: seq<byte>, n: nat)       // server: psock_read_callback
    | DownFlush(n: nat)                        // server: tsock_write_callback
    | DownReceive(k: nat, n: nat)              // device: tsock_read_callback
    | DownDeliver(n: nat)                      // device: psock_write_callback

  /** After radmc_reconnect: the greeting is on the wire and the device's cipher has moved past it. */
  function Start(key: seq<U8>, isRadmin: bool, id: seq<byte>): World {
    var c := Initial(key);
    var idle := Pipe(Half(c, []), [], Half(c, []), [], []);
    var text := Greeting(isRadmin, id);
    World(Waiting, Reading([]), idle.Take(text, |text|), idle)
  }

  function Min(a: nat, b: nat): nat {
    if a <= b then a else b
  }

  /** radmsrv_conn_callback after recv returned n bytes. */
  function ReadGreeting(w: World, n: nat): World
    requires w.server.Reading? && 0 < n <= |w.up.channel|
  {
    var up := w.up.Receive(n, n);
    var buf := w.server.buf + Crypt(w.up.dst.cipher, w.up.channel[..n]);
    var server :=
      match Judge(buf)
      case More => Reading(buf)
      case Refuse => Closed
      case Accept(kind, id) => Parked(kind, id);
    w.(server := server, up := up)
  }

  function Step(w: World, a: Action): World {
    match a
    case ServerReads(n) =>
      if w.server.Reading? && 0 < n <= Min(HEADERSIZE - Min(|w.server.buf|, HEADERSIZE), |w.up.channel|)
      then ReadGreeting(w, n) else w
    case BrowserConnects => if w.server.Parked? then w.(server := Forwarding) else w
    case ServerFails => w.(server := Closed)
    case DeviceStarts => if w.device.Waiting? && w.down.channel != [] then w.(device := Busy) else w
    case DeviceFails => w.(device := Gone)
    case UpTake(chunk, n) =>
      if w.device.Busy? && w.up.src.pending == [] && n <= |chunk| && 0 < |chunk| <= BUFSIZE
      then w.(up := w.up.Take(chunk, n)) else w
    case UpFlush(n) =>
      if w.device.Busy? && w.up.src.pending != [] && n <= |w.up.src.pending|
      then w.(up := w.up.Flush(n)) else w
    case UpReceive(k, n) =>
      if w.server.Forwarding? && w.up.dst.pending == [] && n <= k && 0 < k <= Min(BUFSIZE, |w.up.channel|)
      then w.(up := w.up.Receive(k, n)) else w
    case UpDeliver(n) =>
      if w.server.Forwarding? && w.up.dst.pending != [] && n <= |w.up.dst.pending|
      then w.(up := w.up.Deliver(n)) else w
    case DownTake(chunk, n) =>
      if w.server.Forwarding? && w.down.src.pending == [] && n <= |chunk| && 0 < |chunk| <= BUFSIZE
      then w.(down := w.down.Take(chunk, n)) else w
    case DownFlush(n) =>
      if w.server.Forwarding? && w.down.src.pending != [] && n <= |w.down.src.pending|
      then w.(down := w.down.Flush(n)) else w
    case DownReceive(k, n) =>
      if w.device.Busy? && w.down.dst.pending == [] && n <= k && 0 < k <= Min(BUFSIZE, |w.down.channel|)
      then w.(down := w.down.Receive(k, n)) else w
    case DownDeliver(n) =>
      if w.device.Busy? && w.down.dst.pending != [] && n <= |w.down.dst.pending|
      then w.(down := w.down.Deliver(n)) else w
  }

  function Run(w: World, actions: seq<Action>): World
    decreases |actions|
  {
    if actions == [] then w else Run(Step(w, actions[0]), actions[1..])
  }

  // ----- what every reachable world satisfies

  /** No byte has entered a direction yet. */
  ghost predicate Untouched(p: Pipe) {
    p.read == [] && p.channel == [] && p.src.pending == []
  }

  ghost predicate Invariant(w: World, isRadmin: bool, id: seq<byte>) {
    var text := Greeting(isRadmin, id);
    && w.up.Intact() && w.down.Intact()
    && |w.up.src.pending| <= BUFSIZE && |w.up.dst.pending| <= BUFSIZE
    && |w.down.src.pending| <= BUFSIZE && |w.down.dst.pending| <= BUFSIZE
    && text <= w.up.read
    && (w.device.Waiting? ==> w.up.read == text)
    && (w.server.Reading? ==>
          && w.up.delivered == w.server.buf && w.up.dst.pending == []
          && w.up.read == text && w.up.src.pending == []
          && w.server.buf < text && Untouched(w.down) && !w.device.Busy?)
    && (w.server.Parked? ==>
          && w.server == Parked(if isRadmin then Radmin else Telnet, id)
          && w.up.delivered == w.up.read == text && w.up.InFlight() == [] && w.up.dst.pending == []
          && Untouched(w.down) && !w.device.Busy?)
    && (w.server.Forwarding? || !Untouched(w.down) ==> text <= w.up.delivered)
    && (w.device.Busy? ==> text <= w.up.delivered)
  }

  lemma StartInvariant(key: seq<U8>, isRadmin: bool, id: seq<byte>)
    requires GoodId(id)
    ensures Invariant(Start(key, isRadmin, id), isRadmin, id)
  {
    hide Crypt, Initial;
    var c := Initial(key);
    var idle := Pipe(Half(c, []), [], Half(c, []), [], []);
    var text := Greeting(isRadmin, id);
    assert Crypt(c, []) == [];
    TakeIntact(idle, text, |text|);
  }

  lemma ReadGreetingInvariant(w: World, n: nat, isRadmin: bool, id: seq<byte>)
    requires GoodId(id) && Invariant(w, isRadmin, id)
    requires w.server.Reading? && 0 < n <= |w.up.channel|
    ensures Invariant(ReadGreeting(w, n), isRadmin, id)
  {
    hide Crypt, Advance;
    var text := Greeting(isRadmin, id);
    var v := ReadGreeting(w, n);
    ReceiveIntact(w.up, n, n);
    var buf := v.up.delivered;
    assert buf == w.server.buf + Crypt(w.up.dst.cipher, w.up.channel[..n]);
    assert v.up.dst.pending == [];
    assert text == buf + Crypt(v.up.dst.cipher, v.up.InFlight());
    assert buf <= text && text[|buf| - 1] == buf[|buf| - 1];
    GreetingPrefix(isRadmin, id, |buf|);
    if |buf| == |text| {
      assert buf == text;
      ParseGreeting(isRadmin, id);
      assert v.up.InFlight() == [];
    }
  }

  lemma UpInvariant(w: World, a: Action, isRadmin: bool, id: seq<byte>)
    requires Invariant(w, isRadmin, id)
    requires a.UpTake? || a.UpFlush? || a.UpReceive? || a.UpDeliver?
    ensures Invariant(Step(w, a), isRadmin, id)
  {
    hide Crypt, Advance, Greeting;
    var v := Step(w, a);
    if v != w {
      match a {
        case UpTake(chunk, n) => TakeIntact(w.up, chunk, n);
        case UpFlush(n) => FlushIntact(w.up, n);
        case UpReceive(k, n) => ReceiveIntact(w.up, k, n);
        case UpDeliver(n) => DeliverIntact(w.up, n);
      }
    }
  }

  lemma DownInvariant(w: World, a: Action, isRadmin: bool, id: seq<byte>)
    requires Invariant(w, isRadmin, id)
    requires a.DownTake? || a.DownFlush? || a.DownReceive? || a.DownDeliver?
    ensures Invariant(Step(w, a), isRadmin, id)
  {
    hide Crypt, Advance, Greeting;
    var v := Step(w, a);
    if v != w {
      match a {
        case DownTake(chunk, n) => TakeIntact(w.down, chunk, n);
        case DownFlush(n) => FlushIntact(w.down, n);
        case DownReceive(k, n) => ReceiveIntact(w.down, k, n);
        case DownDeliver(n) => DeliverIntact(w.down, n);
      }
    }
  }

  /** No action breaks the invariant. */
  lemma StepInvariant(w: World, a: Action, isRadmin: bool, id: seq<byte>)
    requires GoodId(id) && Invariant(w, isRadmin, id)
    ensures Invariant(Step(w, a), isRadmin, id)
  {
    if a.UpTake? || a.UpFlush? || a.UpReceive? || a.UpDeliver? {
      UpInvariant(w, a, isRadmin, id);
    } else if a.DownTake? || a.DownFlush? || a.DownReceive? || a.DownDeliver? {
      DownInvariant(w, a, isRadmin, id);
    } else if a.ServerReads? && Step(w, a) != w {
      ReadGreetingInvariant(w, a.n, isRadmin, id);
    } else {
      hide Crypt, Advance, Greeting, Pipe.Intact;
    }
  }

  lemma {:induction false} RunInvariant(w: World, actions: seq<Action>, isRadmin: bool, id: seq<byte>)
    requires GoodId(id) && Invariant(w, isRadmin, id)
    ensures Invariant(Run(w, actions), isRadmin, id)
    decreases |actions|
  {
    hide Invariant, Step;
    if actions != [] {
      StepInvariant(w, actions[0], isRadmin, id);
      RunInvariant(Step(w, actions[0]), actions[1..], isRadmin, id);
    }
  }

  lemma ReachableInvariant(key: seq<U8>, isRadmin: bool, id: seq<byte>, actions: seq<Action>)
    requires GoodId(id)
    ensures Invariant(Run(Start(key, isRadmin, id), actions), isRadmin, id)
  {
    hide Invariant;
    StartInvariant(key, isRadmin, id);
    RunInvariant(Start(key, isRadmin, id), actions, isRadmin, id);
  }

  // ----- main results

  /** What a pipe has carried beyond a prefix of n bytes is intact. */
  ghost predicate Carries(p: Pipe, n: nat) {
    && n <= |p.delivered| && n <= |p.read| && p.delivered[..n] == p.read[..n]
    // delivered, then the far buffer, then the deciphered flight, is what was read
    && p.read[n..] == p.delivered[n..] + p.dst.pending + Crypt(p.dst.cipher, p.channel + p.src.pending)
    // so what was delivered is a prefix of what was read
    && p.delivered[n..] <= p.read[n..]
    // and the cipher states are as far apart as there are bytes in flight
    && p.src.cipher == Advance(p.dst.cipher, |p.channel| + |p.src.pending|)
  }

  lemma IntactCarries(p: Pipe, n: nat)
    requires p.Intact() && n <= |p.delivered|
    ensures Carries(p, n)
  {
    hide Crypt, Advance;
    var rest := p.dst.pending + Crypt(p.dst.cipher, p.channel + p.src.pending);
    assert p.read == p.delivered + rest;
    assert p.read[n..] == p.delivered[n..] + rest;
  }

  /**
   * The device is parked, in every run, only after its whole greeting was read, under exactly
   * the id and kind it announced, and with no other byte consumed.
   */
  lemma ParkedAsAnnounced(key: seq<U8>, isRadmin: bool, id: seq<byte>, actions: seq<Action>)
    requires GoodId(id)
    ensures var w := Run(Start(key, isRadmin, id), actions);
            w.server.Parked? ==>
              && w.server == Parked(if isRadmin then Radmin else Telnet, id)
              && w.up.delivered == Greeting(isRadmin, id)
              && w.up.dst.cipher == w.up.src.cipher
  {
    ReachableInvariant(key, isRadmin, id, actions);
    hide Crypt, Run, Start, Greeting;
  }

  /**
   * Stream integrity in every run, for any chunking and any partial sends.  The device-to-browser
   * direction is intact beyond the greeting, which had already advanced both of its ciphers;
   * the browser-to-device direction from its first byte.
   */
  lemma TunnelIntegrity(key: seq<U8>, isRadmin: bool, id: seq<byte>, actions: seq<Action>)
    requires GoodId(id)
    ensures var w, text := Run(Start(key, isRadmin, id), actions), Greeting(isRadmin, id);
            && (w.server.Forwarding? || w.device.Busy? ==>
                  && Carries(w.up, |text|) && w.up.delivered[..|text|] == text)
            && Carries(w.down, 0)
  {
    ReachableInvariant(key, isRadmin, id, actions);
    hide Crypt, Advance, Run, Start, Greeting;
    var w, text := Run(Start(key, isRadmin, id), actions), Greeting(isRadmin, id);
    if w.server.Forwarding? || w.device.Busy? {
      IntactCarries(w.up, |text|);
    }
    IntactCarries(w.down, 0);
  }

  /** The device talks only after its greeting was handed on, so the server takes nothing else for it. */
  lemma DeviceWaitsForRelay(key: seq<U8>, isRadmin: bool, id: seq<byte>, actions: seq<Action>)
    requires GoodId(id)
    ensures var w := Run(Start(key, isRadmin, id), actions);
            w.device.Busy? || Greeting(isRadmin, id) < w.up.read ==> w.server.Forwarding? || w.server.Closed?
  {
    ReachableInvariant(key, isRadmin, id, actions);
    hide Crypt, Advance, Run, Start, Greeting;
  }

  /** Nothing is buffered or in flight. */
  predicate Quiet(p: Pipe) {
    p.channel == [] && p.src.pending == [] && p.dst.pending == []
  }

  lemma QuietMeansComplete(p: Pipe, n: nat)
    requires Carries(p, n) && Quiet(p)
    ensures p.delivered == p.read && p.src.cipher == p.dst.cipher
  {
    assert p.channel + p.src.pending == [];
    assert p.delivered == p.delivered[..n] + p.delivered[n..] && p.read == p.read[..n] + p.read[n..];
  }

  /**
   * In every run, a direction in which nothing is buffered or in flight has lost nothing: all that was
   * read at one end was delivered at the other, and the two ciphers are equal.
   */
  lemma NothingLost(key: seq<U8>, isRadmin: bool, id: seq<byte>, actions: seq<Action>)
    requires GoodId(id)
    ensures var w := Run(Start(key, isRadmin, id), actions);
            && ((w.server.Forwarding? || w.device.Busy?) && Quiet(w.up) ==>
                  w.up.delivered == w.up.read && w.up.src.cipher == w.up.dst.cipher && Greeting(isRadmin, id) <= w.up.read)
            && (Quiet(w.down) ==> w.down.delivered == w.down.read && w.down.src.cipher == w.down.dst.cipher)
  {
    TunnelIntegrity(key, isRadmin, id, actions);
    hide Crypt, Advance, Run, Start, Greeting;
    var w, text := Run(Start(key, isRadmin, id), actions), Greeting(isRadmin, id);
    if (w.server.Forwarding? || w.device.Busy?) && Quiet(w.up) {
      QuietMeansComplete(w.up, |text|);
    }
    if Quiet(w.down) {
      QuietMeansComplete(w.down, 0);
    }
    hide Carries;
  }

  // ----- every byte arrives

  lemma {:induction false} RunConcat(w: World, a: seq<Action>, b: seq<Action>)
    ensures Run(w, a + b) == Run(Run(w, a), b)
    decreases |a|
  {
    hide Step;
    if a == [] {
      assert a + b == b;
    } else {
      assert (a + b)[1..] == a[1..] + b;
      RunConcat(Step(w, a[0]), a[1..], b);
    }
  }

  lemma RunOne(w: World, a: Action)
    ensures Run(w, [a]) == Step(w, a)
  {
    hide Step;
    assert Run(Step(w, a), [a][1..]) == Step(w, a);
  }

  /** Nothing but the sending and delivering of bytes that were already read. */
  predicate Moves(a: Action) {
    a.UpFlush? || a.UpReceive? || a.UpDeliver? || a.DownFlush? || a.DownReceive? || a.DownDeliver?
  }

  /** Both relays are at work. */
  predicate Relaying(w: World) {
    w.server.Forwarding? && w.device.Busy?
  }

  /** Only what is on its way in the up direction may have changed. */
  predicate UpMoved(w: World, v: World) {
    v == w.(up := v.up) && v.up.read == w.up.read
  }

  predicate DownMoved(w: World, v: World) {
    v == w.(down := v.down) && v.down.read == w.down.read
  }

  lemma {:induction false} UpArrives(w: World) returns (more: seq<Action>)
    requires Relaying(w) && w.up.src.pending == [] && w.up.dst.pending == []
    ensures (forall a :: a in more ==> Moves(a)) && UpMoved(w, Run(w, more)) && Quiet(Run(w, more).up)
    decreases |w.up.channel|
  {
    hide Crypt, Advance;
    more := [];
    if w.up.channel != [] {
      var k := Min(BUFSIZE, |w.up.channel|);
      var a := UpReceive(k, k);
      var rest := UpArrives(Step(w, a));
      more := [a] + rest;
      RunOne(w, a);
      RunConcat(w, [a], rest);
    }
  }

  /** The up direction can be emptied. */
  lemma UpDrains(w: World) returns (more: seq<Action>)
    requires Relaying(w)
    ensures (forall a :: a in more ==> Moves(a)) && UpMoved(w, Run(w, more)) && Quiet(Run(w, more).up)
  {
    var flush, deliver := UpFlush(|w.up.src.pending|), UpDeliver(|w.up.dst.pending|);
    var v := Step(Step(w, flush), deliver);
    assert Relaying(v) && UpMoved(w, v) && v.up.src.pending == [] && v.up.dst.pending == [];
    var rest := UpArrives(v);
    hide Step, Moves;
    assert Moves(flush) && Moves(deliver);
    more := [flush] + [deliver] + rest;
    RunOne(w, flush);
    RunOne(Step(w, flush), deliver);
    RunConcat(w, [flush], [deliver]);
    RunConcat(w, [flush] + [deliver], rest);
  }

  lemma {:induction false} DownArrives(w: World) returns (more: seq<Action>)
    requires Relaying(w) && w.down.src.pending == [] && w.down.dst.pending == []
    ensures (forall a :: a in more ==> Moves(a)) && DownMoved(w, Run(w, more)) && Quiet(Run(w, more).down)
    decreases |w.down.channel|
  {
    hide Crypt, Advance;
    more := [];
    if w.down.channel != [] {
      var k := Min(BUFSIZE, |w.down.channel|);
      var a := DownReceive(k, k);
      var rest := DownArrives(Step(w, a));
      more := [a] + rest;
      RunOne(w, a);
      RunConcat(w, [a], rest);
    }
  }

  lemma DownDrains(w: World) returns (more: seq<Action>)
    requires Relaying(w)
    ensures (forall a :: a in more ==> Moves(a)) && DownMoved(w, Run(w, more)) && Quiet(Run(w, more).down)
  {
    var flush, deliver := DownFlush(|w.down.src.pending|), DownDeliver(|w.down.dst.pending|);
    var v := Step(Step(w, flush), deliver);
    assert Relaying(v) && DownMoved(w, v) && v.down.src.pending == [] && v.down.dst.pending == [];
    var rest := DownArrives(v);
    hide Step, Moves;
    assert Moves(flush) && Moves(deliver);
    more := [flush] + [deliver] + rest;
    RunOne(w, flush);
    RunOne(Step(w, flush), deliver);
    RunConcat(w, [flush], [deliver]);
    RunConcat(w, [flush] + [deliver], rest);
  }

  /**
   * Whatever has happened, while both relays are at work nothing needs to be read any more for all
   * that was read at either end to arrive at the other.
   */
  lemma Drains(key: seq<U8>, isRadmin: bool, id: seq<byte>, actions: seq<Action>) returns (more: seq<Action>)
    requires GoodId(id) && Relaying(Run(Start(key, isRadmin, id), actions))
    ensures forall a :: a in more ==> Moves(a)
    ensures var w := Run(Start(key, isRadmin, id), actions);
            var v := Run(Start(key, isRadmin, id), actions + more);
            && Relaying(v) && Quiet(v.up) && Quiet(v.down)
            && v.up.read == w.up.read && v.up.delivered == w.up.read
            && v.down.read == w.down.read && v.down.delivered == w.down.read
  {
    var start := Start(key, isRadmin, id);
    var w := Run(start, actions);
    var first := UpDrains(w);
    var second := DownDrains(Run(w, first));
    more := first + second;
    RunConcat(start, actions, more);
    RunConcat(w, first, second);
    hide Run, Start, Greeting, Moves;
    NothingLost(key, isRadmin, id, actions + more);
  }

  lemma UpTaken(w: World, chunk: seq<byte>)
    requires Relaying(w) && Quiet(w.up) && 0 < |chunk| <= BUFSIZE
    ensures var v := Step(w, UpTake(chunk, |chunk|));
            v == w.(up := v.up) && v.up.read == w.up.read + chunk
  {
    hide Crypt, Advance;
  }

  /** More text can always be read and carried to the other end. */
  lemma {:induction false} UpCarries(w: World, text: seq<byte>) returns (more: seq<Action>)
    requires Relaying(w)
    ensures var v := Run(w, more);
            Quiet(v.up) && v == w.(up := v.up) && v.up.read == w.up.read + text
    decreases |text|
  {
    hide Step, Run, Quiet, Moves;
    var drain := UpDrains(w);
    var v := Run(w, drain);
    more := drain;
    if text == [] {
      assert w.up.read + text == w.up.read;
    } else {
      var chunk, left := text[..Min(BUFSIZE, |text|)], text[Min(BUFSIZE, |text|)..];
      var a := UpTake(chunk, |chunk|);
      UpTaken(v, chunk);
      var rest := UpCarries(Step(v, a), left);
      assert text == chunk + left;
      assert w.up.read + text == w.up.read + chunk + left;
      RunOne(v, a);
      RunConcat(w, drain, [a]);
      RunConcat(w, drain + [a], rest);
      more := drain + [a] + rest;
    }
  }

  lemma DownTaken(w: World, chunk: seq<byte>)
    requires Relaying(w) && Quiet(w.down) && 0 < |chunk| <= BUFSIZE
    ensures var v := Step(w, DownTake(chunk, |chunk|));
            v == w.(down := v.down) && v.down.read == w.down.read + chunk
  {
    hide Crypt, Advance;
  }

  /** More text can always be read and carried to the other end. */
  lemma {:induction false} DownCarries(w: World, text: seq<byte>) returns (more: seq<Action>)
    requires Relaying(w)
    ensures var v := Run(w, more);
            Quiet(v.down) && v == w.(down := v.down) && v.down.read == w.down.read + text
    decreases |text|
  {
    hide Step, Run, Quiet, Moves;
    var drain := DownDrains(w);
    var v := Run(w, drain);
    more := drain;
    if text == [] {
      assert w.down.read + text == w.down.read;
    } else {
      var chunk, left := text[..Min(BUFSIZE, |text|)], text[Min(BUFSIZE, |text|)..];
      var a := DownTake(chunk, |chunk|);
      DownTaken(v, chunk);
      var rest := DownCarries(Step(v, a), left);
      assert text == chunk + left;
      assert w.down.read + text == w.down.read + chunk + left;
      RunOne(v, a);
      RunConcat(w, drain, [a]);
      RunConcat(w, drain + [a], rest);
      more := drain + [a] + rest;
    }
  }

  /** The greeting as it is on the wire at the start. */
  lemma AtStart(key: seq<U8>, isRadmin: bool, id: seq<byte>)
    requires GoodId(id)
    ensures var w, text := Start(key, isRadmin, id), Greeting(isRadmin, id);
            && w.device.Waiting? && w.server == Reading([]) && Quiet(w.down) && w.down.read == []
            && 0 < |text| <= HEADERSIZE && w.up.read == text
            && w.up.channel == Crypt(w.up.dst.cipher, text)
  {
    hide Crypt, Advance, Initial;
    var c := Initial(key);
    assert Crypt(c, Greeting(isRadmin, id))[..|Greeting(isRadmin, id)|] == Crypt(c, Greeting(isRadmin, id));
  }

  lemma JudgesGreeting(isRadmin: bool, id: seq<byte>)
    requires GoodId(id)
    ensures var text := Greeting(isRadmin, id);
            0 < |text| <= HEADERSIZE && Judge(text) == Accept(if isRadmin then Radmin else Telnet, id)
  {
    ParseGreeting(isRadmin, id);
    GreetingPrefix(isRadmin, id, |Greeting(isRadmin, id)|);
    hide Parse;
  }

  /** A server that reads the whole of it parks the device. */
  lemma ServerReadsSome(w: World, n: nat)
    requires w.server == Reading([]) && 0 < n <= |w.up.channel| && n <= HEADERSIZE
    ensures Step(w, ServerReads(n)) == ReadGreeting(w, n)
  {
    hide ReadGreeting;
  }

  lemma ReadsWhole(w: World, isRadmin: bool, id: seq<byte>)
    requires GoodId(id) && w.server == Reading([]) && w.up.channel == Crypt(w.up.dst.cipher, Greeting(isRadmin, id))
    ensures var n := |Greeting(isRadmin, id)|;
            var v := Step(w, ServerReads(n));
            v == w.(server := v.server, up := v.up) && v.server.Parked? && v.up.read == w.up.read
  {
    var text := Greeting(isRadmin, id);
    JudgesGreeting(isRadmin, id);
    CryptInverse(w.up.dst.cipher, text);
    assert 0 < |text| <= HEADERSIZE;
    hide Crypt, Advance, Greeting, Judge, GoodId, Step;
    ServerReadsSome(w, |text|);
    assert w.up.channel[..|text|] == w.up.channel;
    assert [] + Crypt(w.up.dst.cipher, w.up.channel) == text;
  }

  /** A browser comes and speaks, and the device answers the call. */
  lemma Wakes(w: World, first: byte)
    requires w.server.Parked? && w.device.Waiting? && Quiet(w.down)
    ensures var v := Step(Step(Step(w, BrowserConnects), DownTake([first], 1)), DeviceStarts);
            v == w.(server := Forwarding, device := Busy, down := v.down) && v.down.read == w.down.read + [first]
  {
    hide Crypt, Advance;
  }

  /** From the greeting to relays at work. */
  lemma Opens(key: seq<U8>, isRadmin: bool, id: seq<byte>, first: byte) returns (actions: seq<Action>)
    requires GoodId(id)
    ensures var w := Run(Start(key, isRadmin, id), actions);
            Relaying(w) && w.down.read == [first] && w.up.read == Greeting(isRadmin, id)
  {
    var start, n := Start(key, isRadmin, id), |Greeting(isRadmin, id)|;
    AtStart(key, isRadmin, id);
    ReadsWhole(start, isRadmin, id);
    hide Start, Greeting, Step, Run;
    var w := Step(start, ServerReads(n));
    Wakes(w, first);
    var a, b, c, d := ServerReads(n), BrowserConnects, DownTake([first], 1), DeviceStarts;
    actions := [a] + [b] + [c] + [d];
    RunOne(start, a);
    RunOne(w, b);
    RunOne(Step(w, b), c);
    RunOne(Step(Step(w, b), c), d);
    RunConcat(start, [a], [b]);
    RunConcat(start, [a] + [b], [c]);
    RunConcat(start, [a] + [b] + [c], [d]);
  }

  /**
   * The whole way: for every device, every text it has to say and every text of a browser, which must
   * speak first, there is a run that delivers both completely, the greeting in front of the one.
   */
  lemma EndToEnd(key: seq<U8>, isRadmin: bool, id: seq<byte>, up: seq<byte>, down: seq<byte>) returns (actions: seq<Action>)
    requires GoodId(id) && down != []
    ensures var w := Run(Start(key, isRadmin, id), actions);
            w.up.delivered == Greeting(isRadmin, id) + up && w.down.delivered == down
  {
    var start := Start(key, isRadmin, id);
    var open := Opens(key, isRadmin, id, down[0]);
    var w := Run(start, open);
    var a := DownCarries(w, down[1..]);
    var v := Run(w, a);
    var b := UpCarries(v, up);
    actions := open + a + b;
    RunConcat(start, open, a);
    RunConcat(start, open + a, b);
    assert [down[0]] + down[1..] == down;
    hide Run, Start, Greeting;
    NothingLost(key, isRadmin, id, actions);
  }
}
