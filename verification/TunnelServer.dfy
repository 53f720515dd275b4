/**
 * The server half of a tunnel is what the registry does for one device: from the connection on,
 * every event of the server is, for that device, an action of the tunnel's server or none.
 */
module TunnelServer {
  import opened Bytes
  import opened Rc4
  import opened Header
  import opened Relay
  import R = Registry
  import T = Tunnel
  import TQ = TimerQueue

  /** Device d waits in entry e. */
  predicate ParkedIn(s: R.Server, d: nat, e: nat) {
    e in s.entries && s.entries[e].accepting && s.entries[e].device == d
  }

  /** The server no longer holds device d. */
  ghost predicate Lost(s: R.Server, d: nat) {
    d !in s.conns && d !in s.relays && forall e :: !ParkedIn(s, d, e)
  }

  /** A cipher that has run over n bytes. */
  function Past(key: seq<U8>, n: nat): Cipher {
    Advance(Initial(key), n)
  }

  /** The tunnel's server is in the state the registry has for device d, with the same ciphers. */
  ghost predicate Plays(s: R.Server, key: seq<U8>, d: nat, w: T.World) {
    && d < s.next
    && (match w.server
        case Reading(buf) =>
          && d in s.conns && s.conns[d].buf == buf
          && w.up.dst.cipher == Past(key, |buf|) && w.down.src.cipher == Past(key, 0)
        case Parked(kind, id) =>
          && w.down.src.cipher == Past(key, 0)
          && exists e :: ParkedIn(s, d, e) && s.entries[e].kind == kind && s.entries[e].id == id
                         && w.up.dst.cipher == Past(key, |s.entries[e].line|)
        case Forwarding =>
          && d in s.relays
          && w.up.dst.cipher == Past(key, s.relays[d].got) && w.down.src.cipher == Past(key, s.relays[d].put)
        case Closed => Lost(s, d))
  }

  /** One thing that happens: an event of the server, or something the registry does not see. */
  datatype Move =
    | InServer(ev: R.Event, n: nat, chunk: seq<byte>)  // a relay's callback handed on n bytes; chunk is what it read for the device
    | Outside(a: T.Action)

  /** What happens at the device, and the sending of bytes a relay has kept. */
  predicate Unseen(a: T.Action) {
    a.DeviceStarts? || a.DeviceFails? || a.UpTake? || a.UpFlush? || a.UpDeliver? || a.DownFlush? || a.DownReceive? || a.DownDeliver?
  }

  /** The bytes the server reads from the device are the next on the wire, and a relay reads when its buffer is empty. */
  predicate Carried(w: T.World, d: nat, mv: Move) {
    match mv
    case Outside(a) => Unseen(a)
    case InServer(ev, n, chunk) =>
      match ev
      case EvRead(x, received, _) => x == d ==> received <= w.up.channel
      case EvRelayReads(x, k) => x == d ==> w.up.dst.pending == [] && n <= k <= T.Min(BUFSIZE, |w.up.channel|)
      case EvRelayWrites(x, k) => x == d ==> w.down.src.pending == [] && |chunk| == k <= BUFSIZE && n <= k
      case _ => true
  }

  /** The action of the tunnel's server that an event is: none, when the event is about something else. */
  function Own(s: R.Server, d: nat, mv: Move): seq<T.Action> {
    match mv
    case Outside(a) => [a]
    case InServer(ev, n, chunk) =>
      match ev
      case EvRead(x, received, _) => if x == d then [T.ServerReads(|received|)] else []
      case EvBrowser(e, psock, m) =>
        if ParkedIn(s, d, e) && psock > 0 && R.Fd(psock) !in s.table && R.Mem(m) !in s.table then [T.BrowserConnects] else []
      case EvRelayReads(x, k) => if x == d then [T.UpReceive(k, n)] else []
      case EvRelayWrites(x, k) => if x == d then [T.DownTake(chunk, n)] else []
      case _ => []
  }

  function Next(s: R.Server, key: seq<U8>, mv: Move): R.Server
    requires forall c :: c in s.list ==> c in s.entries
  {
    if mv.InServer? then R.Step(s, key, mv.ev) else s
  }

  /** All that a move is in the tunnel: its own action, and the server's failure when the device is held no more. */
  ghost function Acts(s: R.Server, key: seq<U8>, d: nat, mv: Move): seq<T.Action>
    requires forall c :: c in s.list ==> c in s.entries
  {
    Own(s, d, mv) + if Lost(Next(s, key, mv), d) then [T.ServerFails] else []
  }

  // ----- events that are not about the device

  /** Nothing of device d is new or changed in t. */
  ghost predicate Kept(s: R.Server, t: R.Server, d: nat) {
    && s.next <= t.next
    && (d in t.conns ==> d in s.conns && t.conns[d] == s.conns[d])
    && (d in t.relays ==> d in s.relays && t.relays[d] == s.relays[d])
    && (forall e :: ParkedIn(t, d, e) ==> ParkedIn(s, d, e) && t.entries[e] == s.entries[e])
  }

  /** A device is in one place. */
  lemma NotBoth(s: R.Server, d: nat)
    requires R.Named(s)
    ensures d in s.conns ==> d !in s.relays
    ensures forall e :: ParkedIn(s, d, e) ==> d !in s.conns && d !in s.relays
    ensures forall e, f :: ParkedIn(s, d, e) && ParkedIn(s, d, f) ==> e == f
  {
  }

  /** The device stays where it was or is lost. */
  lemma KeptPlays(s: R.Server, t: R.Server, key: seq<U8>, d: nat, w: T.World)
    requires R.Named(s) && Plays(s, key, d, w) && Kept(s, t, d)
    ensures if Lost(t, d) then Plays(t, key, d, w.(server := T.Closed)) else Plays(t, key, d, w)
  {
    hide Past;
    if !Lost(t, d) {
      match w.server {
        case Reading(buf) => assert forall e :: !ParkedIn(s, d, e);
        case Parked(kind, id) => NotBoth(s, d);
        case Forwarding => NotBoth(s, d);
        case Closed =>
      }
    }
  }

  lemma DeleteKept(s: R.Server, d: nat, id: seq<byte>, kind: Kind)
    requires R.Linked(s)
    ensures Kept(s, R.Delete(s, id, kind), d)
  {
    hide R.Find, R.Without, R.NoDup, R.ParkedResources, TQ.Do, R.Destroyed;
  }

  lemma TimerKept(s: R.Server, d: nat, now: TQ.TimeVal)
    requires R.Linked(s)
    ensures Kept(s, R.TimerFires(s, now), d)
  {
    if s.q.locked && TQ.Overdue(s.q, s.clock) && s.q.armed[0].timer in s.q.intervals {
      var t, r := s.q.armed[0].timer, s.(q := TQ.Expire(s.q, now));
      hide TQ.Expire, R.NoDup;
      if t in s.timeouts && s.timeouts[t] in s.entries {
        var c := s.entries[s.timeouts[t]];
        DeleteKept(r, d, c.id, c.kind);
      }
      hide R.Delete;
    }
  }

  lemma ParkKept(s: R.Server, d: nat, x: nat, e: nat, now: TQ.TimeVal)
    requires x in s.conns && e in s.entries && x != d
    ensures Kept(s, R.Park(s, x, e, now), d)
  {
    hide R.ParkedResources;
  }

  lemma NewClientKept(s: R.Server, d: nat, id: seq<byte>, kind: Kind, l: int, t: nat, now: TQ.TimeVal)
    requires R.Linked(s) && s.next !in s.entries
    ensures Kept(s, R.NewClient(s, id, kind, l, t, now), d)
  {
    hide R.Slot, R.InsertAt, R.NoDup, TQ.Do;
  }

  lemma KeptFrom(s: R.Server, r: R.Server, t: R.Server, d: nat)
    requires Kept(s, r, d) && Kept(r, t, d)
    ensures Kept(s, t, d)
  {
    hide ParkedIn;
  }

  lemma TouchKept(s: R.Server, d: nat, e: nat, now: TQ.TimeVal)
    requires e in s.entries
    ensures Kept(s, R.Touch(s, e, now), d)
  {
    hide TQ.Do;
  }

  lemma DropKept(s: R.Server, d: nat, x: nat)
    requires x in s.conns
    ensures Kept(s, R.DropConn(s, x), d)
  {
  }

  lemma GreetKept(s: R.Server, d: nat, x: nat, id: seq<byte>, kind: Kind, g: R.Grant)
    requires R.Linked(s) && s.next !in s.entries && x in s.conns && x != d
    ensures Kept(s, R.Greet(s, x, id, kind, g), d)
  {
    hide R.Find, R.NoDup, TQ.Do, Kept, R.Park, R.NewClient;
    var k := R.Find(s.entries, s.list, id, kind);
    if k < |s.list| {
      var r := R.Touch(s, s.list[k], g.now);
      TouchKept(s, d, s.list[k], g.now);
      ParkKept(r, d, x, s.list[k], g.now);
      KeptFrom(s, r, R.Park(r, x, s.list[k], g.now), d);
    } else if R.Granted(s, g) {
      var r := R.NewClient(s, id, kind, g.listener.value, g.timer, g.now);
      R.NewClientKeeps(s, id, kind, g.listener.value, g.timer, g.now);
      NewClientKept(s, d, id, kind, g.listener.value, g.timer, g.now);
      ParkKept(r, d, x, s.next, g.now);
      KeptFrom(s, r, R.Park(r, x, s.next, g.now), d);
    } else {
      DropKept(s, d, x);
    }
  }

  lemma ReadsKept(s: R.Server, d: nat, x: nat, received: seq<byte>, g: R.Grant)
    requires R.Linked(s) && R.Named(s) && x != d
    ensures Kept(s, R.ConnReads(s, x, received, g), d)
  {
    hide Judge, Crypt, Advance, R.Greet, R.NoDup;
    if x in s.conns && s.conns[x].dec in s.ciphers && received != [] && |s.conns[x].buf| + |received| <= HEADERSIZE {
      var t := R.Buffered(s, x, received);
      R.BufferedNamed(s, x, received);
      match Judge(t.conns[x].buf) {
        case Accept(kind, id) => GreetKept(t, d, x, id, kind, g);
        case _ =>
      }
    }
  }

  lemma DeviceKept(s: R.Server, key: seq<U8>, d: nat, sock: int, p: nat)
    requires d < s.next
    ensures Kept(s, R.DeviceConnects(s, key, sock, p), d)
  {
    hide Initial;
  }

  lemma BrowserKept(s: R.Server, key: seq<U8>, d: nat, e: nat, psock: int, m: nat)
    requires Own(s, d, InServer(R.EvBrowser(e, psock, m), 0, [])) == []
    ensures Kept(s, R.BrowserConnects(s, key, e, psock, m), d)
  {
    hide Initial;
  }

  lemma RelayKept(s: R.Server, d: nat, x: nat, k: nat)
    ensures x != d ==> Kept(s, R.RelayReads(s, x, k), d) && Kept(s, R.RelayWrites(s, x, k), d)
    ensures Kept(s, R.RelayEnds(s, x), d)
  {
    hide Advance;
  }

  lemma QueueKept(s: R.Server, d: nat, q: TQ.Queue, clock: TQ.TimeVal)
    ensures Kept(s, s, d) && Kept(s, s.(q := q, clock := clock), d)
  {
  }

  /** The event concerns other devices, entries or timers. */
  lemma OtherKept(s: R.Server, key: seq<U8>, d: nat, ev: R.Event)
    requires R.Linked(s) && R.Named(s) && d < s.next && Own(s, d, InServer(ev, 0, [])) == []
    ensures Kept(s, R.Step(s, key, ev), d)
  {
    QueueKept(s, d, s.q, s.clock);
    match ev {
      case EvDevice(sock, p) => DeviceKept(s, key, d, sock, p);
      case EvRead(x, received, g) => ReadsKept(s, d, x, received, g);
      case EvBrowser(e, psock, m) => BrowserKept(s, key, d, e, psock, m);
      case EvRelayReads(x, k) => RelayKept(s, d, x, k);
      case EvRelayWrites(x, k) => RelayKept(s, d, x, k);
      case EvRelayEnds(x) => RelayKept(s, d, x, 0);
      case EvPassBegins(clock) => QueueKept(s, d, s.q.(locked := true), TQ.Sane(clock));
      case EvTimer(now) => TimerKept(s, d, now);
      case EvPassEnds => QueueKept(s, d, TQ.Finish(s.q), s.clock);
      case EvOtherTimer(op) => QueueKept(s, d, TQ.Do(s.q, op), s.clock);
      case EvDelete(id, kind) => DeleteKept(s, d, id, kind);
    }
    hide R.Linked, R.Named, R.DeviceConnects, R.ConnReads, R.BrowserConnects, R.RelayReads, R.RelayWrites, R.RelayEnds,
      R.TimerFires, R.Delete, TQ.Finish, TQ.Do, Kept;
  }

  // ----- events that are

  /** After a step that is the device's own: it plays on, or was lost. */
  ghost predicate PlaysOn(t: R.Server, key: seq<U8>, d: nat, v: T.World) {
    if Lost(t, d) then Plays(t, key, d, v.(server := T.Closed)) else Plays(t, key, d, v)
  }

  lemma ParkPlays(s: R.Server, key: seq<U8>, d: nat, e: nat, now: TQ.TimeVal, w: T.World)
    requires d in s.conns && d < s.next && e in s.entries && w.server == T.Parked(s.entries[e].kind, s.entries[e].id)
    requires w.up.dst.cipher == Past(key, |s.conns[d].buf|) && w.down.src.cipher == Past(key, 0)
    ensures PlaysOn(R.Park(s, d, e, now), key, d, w)
  {
    hide R.ParkedResources, Past;
    var t := R.Park(s, d, e, now);
    assert ParkedIn(t, d, e) && t.entries[e].line == s.conns[d].buf;
  }

  /** The device's line was read to its end. */
  lemma GreetPlays(s: R.Server, key: seq<U8>, d: nat, w: T.World, id: seq<byte>, kind: Kind, g: R.Grant)
    requires R.Linked(s) && R.Named(s) && d in s.conns && w.server == T.Parked(kind, id)
    requires w.up.dst.cipher == Past(key, |s.conns[d].buf|) && w.down.src.cipher == Past(key, 0)
    ensures PlaysOn(R.Greet(s, d, id, kind, g), key, d, w)
  {
    hide R.Find, R.NoDup, TQ.Do, Past;
    var k := R.Find(s.entries, s.list, id, kind);
    if k < |s.list| {
      ParkPlays(R.Touch(s, s.list[k], g.now), key, d, s.list[k], g.now, w);
      hide R.Park;
    } else if R.Granted(s, g) {
      R.NewEntry(s, id, kind, g.listener.value, g.timer, g.now);
      ParkPlays(R.NewClient(s, id, kind, g.listener.value, g.timer, g.now), key, d, s.next, g.now, w);
      hide R.Park, R.NewClient;
    } else {
      NotBoth(s, d);
    }
  }

  lemma DroppedPlays(s: R.Server, key: seq<U8>, d: nat, w: T.World)
    requires R.Named(s) && d in s.conns
    ensures PlaysOn(R.DropConn(s, d), key, d, w)
  {
    NotBoth(s, d);
    hide Past;
  }

  /** Both have read the same bytes, with the same cipher. */
  lemma BufferedPlays(s: R.Server, key: seq<U8>, d: nat, w: T.World, received: seq<byte>)
    requires Plays(s, key, d, w) && w.server.Reading? && received <= w.up.channel && received != []
    requires s.conns[d].dec in s.ciphers && s.ciphers[s.conns[d].dec] == Past(key, |s.conns[d].buf|)
    ensures var t, v := R.Buffered(s, d, received), T.ReadGreeting(w, |received|);
            && d in t.conns && v.up.dst.cipher == Past(key, |t.conns[d].buf|)
            && v.down.src.cipher == Past(key, 0)
            && v.server == match Judge(t.conns[d].buf)
                           case More => T.Reading(t.conns[d].buf)
                           case Refuse => T.Closed
                           case Accept(kind, id) => T.Parked(kind, id)
  {
    hide Judge, Crypt, Advance, Initial;
    AdvanceAdd(Initial(key), |s.conns[d].buf|, |received|);
    assert w.up.channel[..|received|] == received;
  }

  lemma LinePlays(s: R.Server, key: seq<U8>, d: nat, w: T.World, received: seq<byte>, g: R.Grant)
    requires R.Linked(s) && R.Named(s) && Plays(s, key, d, w) && w.server.Reading? && received <= w.up.channel && received != []
    requires s.conns[d].dec in s.ciphers && s.ciphers[s.conns[d].dec] == Past(key, |s.conns[d].buf|)
    requires |s.conns[d].buf| + |received| <= HEADERSIZE
    ensures PlaysOn(R.ConnReads(s, d, received, g), key, d, T.ReadGreeting(w, |received|))
  {
    BufferedPlays(s, key, d, w, received);
    R.BufferedNamed(s, d, received);
    var t, v := R.Buffered(s, d, received), T.ReadGreeting(w, |received|);
    hide Judge, Past, R.Greet, T.ReadGreeting, R.NoDup;
    assert R.Linked(t);
    hide R.Linked, R.Named;
    match Judge(t.conns[d].buf) {
      case More =>
      case Refuse => DroppedPlays(t, key, d, v);
      case Accept(kind, id) => GreetPlays(t, key, d, v, id, kind, g);
    }
    hide R.DropConn, R.Buffered;
  }

  lemma PendingCipher(s: R.Server, key: seq<U8>, d: nat)
    requires R.Owned(s) && R.Counted(s, key) && d in s.conns
    ensures s.conns[d].dec in s.ciphers && s.ciphers[s.conns[d].dec] == Past(key, |s.conns[d].buf|)
  {
    assert R.HasCount(s, R.Pending(d), s.conns[d].dec, |s.conns[d].buf|);
  }

  /** radmsrv_conn_callback on the device's own connection. */
  lemma ReadsPlay(s: R.Server, key: seq<U8>, d: nat, w: T.World, received: seq<byte>, g: R.Grant)
    requires R.Invariant(s) && R.Deciphers(s, key) && Plays(s, key, d, w) && received <= w.up.channel
    ensures PlaysOn(R.ConnReads(s, d, received, g), key, d, T.Step(w, T.ServerReads(|received|)))
  {
    NotBoth(s, d);
    if w.server.Reading? {
      PendingCipher(s, key, d);
      assert R.Linked(s) && R.Named(s);
      hide R.Invariant, R.Deciphers;
      if received == [] {
        DroppedPlays(s, key, d, w);
      } else if |s.conns[d].buf| + |received| <= HEADERSIZE {
        LinePlays(s, key, d, w, received, g);
      }
      hide R.Linked, R.Named, T.ReadGreeting, R.Greet, Judge, Crypt, Past;
    }
  }

  lemma EntryCell(s: R.Server, key: seq<U8>, e: nat)
    requires R.Invariant(s) && R.Counted(s, key) && e in s.entries && s.entries[e].accepting
    ensures var c := s.entries[e];
            c.dec.Some? && c.dec.value in s.ciphers && s.ciphers[c.dec.value] == Past(key, |c.line|)
  {
    hide R.SortedIds, R.Owned, R.Named, R.Timed, Advance, Initial;
    assert R.EntryOk(s.entries[e]);
    assert R.HasCount(s, R.Parked(e), s.entries[e].dec.value, |s.entries[e].line|);
  }

  /** The hand-over in numbers. */
  lemma BrowserMeans(s: R.Server, key: seq<U8>, e: nat, psock: int, m: nat)
    requires e in s.entries && s.entries[e].accepting && s.entries[e].dec.Some?
    requires psock > 0 && R.Fd(psock) !in s.table && R.Mem(m) !in s.table
    ensures var t, d := R.BrowserConnects(s, key, e, psock, m), s.entries[e].device;
            d in t.relays && t.relays[d].got == |s.entries[e].line| && t.relays[d].put == 0 && t.next == s.next
  {
    hide Initial;
  }

  lemma BrowserPlays(s: R.Server, key: seq<U8>, d: nat, w: T.World, e: nat, psock: int, m: nat)
    requires R.Invariant(s) && R.Deciphers(s, key) && Plays(s, key, d, w) && ParkedIn(s, d, e)
    requires psock > 0 && R.Fd(psock) !in s.table && R.Mem(m) !in s.table
    ensures PlaysOn(R.BrowserConnects(s, key, e, psock, m), key, d, T.Step(w, T.BrowserConnects))
  {
    NotBoth(s, d);
    EntryCell(s, key, e);
    BrowserMeans(s, key, e, psock, m);
    hide R.Invariant, R.Deciphers, R.Named, R.BrowserConnects, Past;
    assert w.server.Parked?;
  }

  lemma RelayCells(s: R.Server, key: seq<U8>, d: nat)
    requires R.Owned(s) && R.Counted(s, key) && d in s.relays
    ensures var l := s.relays[d];
            && l.dec in s.ciphers && s.ciphers[l.dec] == Past(key, l.got)
            && l.enc in s.ciphers && s.ciphers[l.enc] == Past(key, l.put)
  {
    assert R.HasCount(s, R.Tunnel(d), s.relays[d].dec, s.relays[d].got);
    assert R.HasCount(s, R.Browser(d), s.relays[d].enc, s.relays[d].put);
  }

  lemma PastAdd(key: seq<U8>, n: nat, k: nat)
    ensures Advance(Past(key, n), k) == Past(key, n + k)
  {
    AdvanceAdd(Initial(key), n, k);
  }

  lemma RelayReadsPlay(s: R.Server, key: seq<U8>, d: nat, w: T.World, k: nat, n: nat)
    requires R.Invariant(s) && R.Deciphers(s, key) && Plays(s, key, d, w)
    requires w.up.dst.pending == [] && n <= k <= T.Min(BUFSIZE, |w.up.channel|)
    ensures PlaysOn(R.RelayReads(s, d, k), key, d, T.Step(w, T.UpReceive(k, n)))
  {
    NotBoth(s, d);
    if w.server.Forwarding? {
      RelayCells(s, key, d);
      PastAdd(key, s.relays[d].got, k);
      PastAdd(key, s.relays[d].got, 0);
    }
    hide R.Invariant, R.Deciphers, R.Named, Past, Advance, Initial, Crypt;
  }

  lemma RelayWritesPlay(s: R.Server, key: seq<U8>, d: nat, w: T.World, k: nat, n: nat, chunk: seq<byte>)
    requires R.Invariant(s) && R.Deciphers(s, key) && Plays(s, key, d, w)
    requires w.down.src.pending == [] && |chunk| == k <= BUFSIZE && n <= k
    ensures PlaysOn(R.RelayWrites(s, d, k), key, d, T.Step(w, T.DownTake(chunk, n)))
  {
    NotBoth(s, d);
    if w.server.Forwarding? {
      RelayCells(s, key, d);
      PastAdd(key, s.relays[d].put, k);
      PastAdd(key, s.relays[d].put, 0);
    }
    hide R.Invariant, R.Deciphers, R.Named, Past, Advance, Initial, Crypt;
  }

  // ----- every move

  lemma OneStep(w: T.World, a: seq<T.Action>)
    requires |a| <= 1
    ensures T.Run(w, a) == if a == [] then w else T.Step(w, a[0])
  {
    hide T.Step;
    if a != [] {
      assert a == [a[0]];
      T.RunOne(w, a[0]);
    }
  }

  lemma Fails(w: T.World)
    ensures T.Step(w, T.ServerFails) == w.(server := T.Closed)
  {
  }

  /** An own action, if there is one, then the failure, if the device is lost. */
  lemma ActsRun(s: R.Server, key: seq<U8>, d: nat, w: T.World, mv: Move)
    requires R.Linked(s)
    ensures var own, t := Own(s, d, mv), Next(s, key, mv);
            var v := if own == [] then w else T.Step(w, own[0]);
            |own| <= 1 && T.Run(w, Acts(s, key, d, mv)) == if Lost(t, d) then v.(server := T.Closed) else v
  {
    hide Lost, R.Step, R.NoDup;
    var own := Own(s, d, mv);
    var fails := if Lost(Next(s, key, mv), d) then [T.ServerFails] else [];
    T.RunConcat(w, own, fails);
    hide T.Step, T.Run, Own;
    OneStep(w, own);
    OneStep(T.Run(w, own), fails);
    Fails(T.Run(w, own));
  }

  /** What the registry does not see changes neither its place for the device nor its ciphers. */
  lemma UnseenPlays(s: R.Server, key: seq<U8>, d: nat, w: T.World, a: T.Action)
    requires Plays(s, key, d, w) && Unseen(a)
    ensures PlaysOn(s, key, d, T.Step(w, a))
  {
    hide Past, Crypt, Advance;
    assert T.Step(w, a).server == w.server;
  }

  lemma OwnPlays(s: R.Server, key: seq<U8>, d: nat, w: T.World, mv: Move)
    requires R.Invariant(s) && R.Deciphers(s, key) && Plays(s, key, d, w) && Carried(w, d, mv)
    requires mv.InServer? && Own(s, d, mv) != []
    ensures PlaysOn(Next(s, key, mv), key, d, T.Step(w, Own(s, d, mv)[0]))
  {
    match mv.ev {
      case EvRead(x, received, g) => ReadsPlay(s, key, d, w, received, g);
      case EvBrowser(e, psock, m) => BrowserPlays(s, key, d, w, e, psock, m);
      case EvRelayReads(x, k) => RelayReadsPlay(s, key, d, w, k, mv.n);
      case EvRelayWrites(x, k) => RelayWritesPlay(s, key, d, w, k, mv.n, mv.chunk);
    }
    hide R.Invariant, R.Deciphers, Plays, PlaysOn, T.Step, R.ConnReads, R.BrowserConnects, R.RelayReads, R.RelayWrites, ParkedIn;
  }

  lemma OwnOfEvent(s: R.Server, d: nat, mv: Move)
    requires mv.InServer? && Own(s, d, mv) == []
    ensures Own(s, d, InServer(mv.ev, 0, [])) == []
  {
    hide ParkedIn;
  }

  /** Every move of the server is, for device d, the tunnel's. */
  lemma MovePlays(s: R.Server, key: seq<U8>, d: nat, w: T.World, mv: Move)
    requires R.Invariant(s) && R.Deciphers(s, key) && Plays(s, key, d, w) && Carried(w, d, mv)
    ensures Plays(Next(s, key, mv), key, d, T.Run(w, Acts(s, key, d, mv)))
  {
    assert R.Linked(s) && R.Named(s);
    ActsRun(s, key, d, w, mv);
    if mv.Outside? {
      UnseenPlays(s, key, d, w, mv.a);
    } else if Own(s, d, mv) == [] {
      assert d < s.next;
      OwnOfEvent(s, d, mv);
      OtherKept(s, key, d, mv.ev);
      KeptPlays(s, R.Step(s, key, mv.ev), key, d, w);
    } else {
      OwnPlays(s, key, d, w, mv);
    }
    hide R.Invariant, R.Linked, R.Named, R.Deciphers, R.Step, T.Step, Plays, Lost, Own, T.Run, Acts, Kept;
  }

  lemma NextOk(s: R.Server, key: seq<U8>, mv: Move)
    requires R.Invariant(s) && R.Deciphers(s, key)
    ensures R.Invariant(Next(s, key, mv)) && R.Deciphers(Next(s, key, mv), key)
  {
    if mv.InServer? {
      R.StepOk(s, key, mv.ev);
      R.StepDeciphers(s, key, mv.ev);
    }
    hide R.Step, R.Deciphers;
  }

  // ----- runs

  /** From server s and tunnel w the moves, each with its bytes as they come over the wire, lead to t and v. */
  ghost predicate Course(s: R.Server, key: seq<U8>, d: nat, w: T.World, moves: seq<Move>, t: R.Server, v: T.World)
    requires R.Invariant(s) && R.Deciphers(s, key)
    decreases |moves|
  {
    if moves == [] then t == s && v == w
    else
      && Carried(w, d, moves[0])
      && (NextOk(s, key, moves[0]);
          Course(Next(s, key, moves[0]), key, d, T.Run(w, Acts(s, key, d, moves[0])), moves[1..], t, v))
  }

  lemma {:induction false} CoursePlays(s: R.Server, key: seq<U8>, d: nat, w: T.World, moves: seq<Move>, t: R.Server, v: T.World)
    returns (actions: seq<T.Action>)
    requires R.Invariant(s) && R.Deciphers(s, key) && Plays(s, key, d, w)
    requires Course(s, key, d, w, moves, t, v)
    ensures R.Invariant(t) && R.Deciphers(t, key) && Plays(t, key, d, v)
    ensures v == T.Run(w, actions)
    decreases |moves|
  {
    hide R.Listed, R.Owned, R.Named, R.Timed, R.Deciphers, R.Step, T.Step, Plays, Carried, Acts, Next;
    actions := [];
    if moves != [] {
      NextOk(s, key, moves[0]);
      MovePlays(s, key, d, w, moves[0]);
      assert R.Linked(s) by {
        R.EntriesListed(s);
      }
      var acts := Acts(s, key, d, moves[0]);
      var rest := CoursePlays(Next(s, key, moves[0]), key, d, T.Run(w, acts), moves[1..], t, v);
      T.RunConcat(w, acts, rest);
      actions := acts + rest;
    }
  }

  /** A device's tunnel starts when its connection is accepted. */
  lemma StartPlays(s: R.Server, key: seq<U8>, isRadmin: bool, id: seq<byte>, sock: int, p: nat)
    requires R.Invariant(s) && R.Deciphers(s, key)
    requires sock > 0 && R.Fd(sock) !in s.table && R.Mem(p) !in s.table
    ensures var t := R.DeviceConnects(s, key, sock, p);
            R.Invariant(t) && R.Deciphers(t, key) && Plays(t, key, s.next, T.Start(key, isRadmin, id))
  {
    R.DeviceConnectsOk(s, key, sock, p);
    R.DeviceConnectsDeciphers(s, key, sock, p);
    hide R.Invariant, R.Deciphers, Initial, Crypt, Greeting;
  }

  /** Where the registry has the device is the state of the tunnel's server, and its ciphers are the tunnel's. */
  lemma PlaysMeans(s: R.Server, key: seq<U8>, d: nat, w: T.World)
    requires R.Invariant(s) && R.Deciphers(s, key) && Plays(s, key, d, w)
    ensures w.server.Reading? <==> d in s.conns
    ensures w.server.Parked? <==> exists e :: ParkedIn(s, d, e)
    ensures w.server.Forwarding? <==> d in s.relays
    ensures forall e :: ParkedIn(s, d, e) ==>
              var c := s.entries[e];
              w.server == T.Parked(c.kind, c.id) && c.dec.Some? && c.dec.value in s.ciphers && w.up.dst.cipher == s.ciphers[c.dec.value]
    ensures d in s.relays ==>
              var l := s.relays[d];
              && l.dec in s.ciphers && w.up.dst.cipher == s.ciphers[l.dec]
              && l.enc in s.ciphers && w.down.src.cipher == s.ciphers[l.enc]
  {
    NotBoth(s, d);
    if d in s.relays {
      RelayCells(s, key, d);
    }
    forall e | ParkedIn(s, d, e)
      ensures var c := s.entries[e];
              c.dec.Some? && c.dec.value in s.ciphers && s.ciphers[c.dec.value] == Past(key, |c.line|)
    {
      EntryCell(s, key, e);
    }
    hide R.Invariant, R.Deciphers, Past;
  }

  // ----- main results

  /**
   * A device that announces kind and id connects, on descriptor sock, to a server in any reachable
   * state, and gets the name d; then the moves happen, there and at the device.
   */
  ghost predicate Happens(key: seq<U8>, isRadmin: bool, id: seq<byte>, before: seq<R.Event>, sock: int, p: nat, d: nat,
                          moves: seq<Move>, t: R.Server, v: T.World)
  {
    var s := R.After(key, before);
    && GoodId(id) && d == s.next
    && sock > 0 && R.Fd(sock) !in s.table && R.Mem(p) !in s.table
    && (StartPlays(s, key, isRadmin, id, sock, p);
        Course(R.DeviceConnects(s, key, sock, p), key, d, T.Start(key, isRadmin, id), moves, t, v))
  }

  /** The server has then kept its own invariants and played the server of the tunnel in one of its runs. */
  lemma HappensPlays(key: seq<U8>, isRadmin: bool, id: seq<byte>, before: seq<R.Event>, sock: int, p: nat, d: nat,
                     moves: seq<Move>, t: R.Server, v: T.World)
    returns (actions: seq<T.Action>)
    requires Happens(key, isRadmin, id, before, sock, p, d, moves, t, v)
    ensures R.Invariant(t) && R.Deciphers(t, key) && Plays(t, key, d, v)
    ensures v == T.Run(T.Start(key, isRadmin, id), actions)
  {
    var s := R.After(key, before);
    StartPlays(s, key, isRadmin, id, sock, p);
    hide R.Listed, R.Owned, R.Named, R.Timed, R.Deciphers, R.After, R.DeviceConnects, Course, T.Start, T.Run, Plays;
    actions := CoursePlays(R.DeviceConnects(s, key, sock, p), key, d, T.Start(key, isRadmin, id), moves, t, v);
  }

  /**
   * While the registry has the device parked, that is under the announced kind and id, with the whole
   * announcement read and nothing else, and with the very cipher state the device has.
   */
  lemma ParkedInRegistry(key: seq<U8>, isRadmin: bool, id: seq<byte>, before: seq<R.Event>, sock: int, p: nat, d: nat,
                         moves: seq<Move>, t: R.Server, v: T.World, e: nat)
    requires Happens(key, isRadmin, id, before, sock, p, d, moves, t, v)
    ensures ParkedIn(t, d, e) ==>
              var c := t.entries[e];
              && c.kind == (if isRadmin then Radmin else Telnet) && c.id == id
              && v.up.delivered == Greeting(isRadmin, id)
              && c.dec.Some? && c.dec.value in t.ciphers && t.ciphers[c.dec.value] == v.up.src.cipher
  {
    var actions := HappensPlays(key, isRadmin, id, before, sock, p, d, moves, t, v);
    assert GoodId(id);
    hide R.Invariant, R.Deciphers, Happens, T.Start, T.Run, Plays, Greeting, GoodId;
    PlaysMeans(t, key, d, v);
    T.ParkedAsAnnounced(key, isRadmin, id, actions);
  }

  /**
   * While the registry relays it, the two ciphers of that relay are the server's halves of a tunnel
   * whose streams are intact: what was delivered is a prefix of what was read, and the relay's cipher
   * makes the rest of the bytes on the wire.
   */
  lemma RelayedIntact(key: seq<U8>, isRadmin: bool, id: seq<byte>, before: seq<R.Event>, sock: int, p: nat, d: nat,
                      moves: seq<Move>, t: R.Server, v: T.World)
    requires Happens(key, isRadmin, id, before, sock, p, d, moves, t, v)
    ensures d in t.relays ==>
              var l, text := t.relays[d], Greeting(isRadmin, id);
              && l.dec in t.ciphers && v.up.dst.cipher == t.ciphers[l.dec]
              && l.enc in t.ciphers && v.down.src.cipher == t.ciphers[l.enc]
              && T.Carries(v.up, |text|) && T.Carries(v.down, 0) && text <= v.up.delivered
  {
    var actions := HappensPlays(key, isRadmin, id, before, sock, p, d, moves, t, v);
    assert GoodId(id);
    hide R.Invariant, R.Deciphers, Happens, T.Start, T.Run, Plays, Greeting, GoodId;
    PlaysMeans(t, key, d, v);
    T.TunnelIntegrity(key, isRadmin, id, actions);
  }
}
