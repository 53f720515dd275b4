/**
 * The server's registry of devices: pending connections, the sorted list of entries that park
 * devices, and the relays they are handed to.
 *
 * Descriptors and heap cells carry the name of their holder, so that "belongs to exactly one"
 * can be stated; accept, socket and malloc are told which free number the system returns.
 */
module Registry {
  import opened Bytes
  import opened Rc4
  import opened Header
  import TQ = TimerQueue
  import opened TimerLive

  // ----- strcmp

  /** strcmp on C strings: negative, zero or positive. */
  function StrCmp(a: seq<byte>, b: seq<byte>): int
    decreases |a|
  {
    if a == [] && b == [] then 0
    else if a == [] then -1
    else if b == [] then 1
    else if a[0] == b[0] then StrCmp(a[1..], b[1..])
    else if a[0] < b[0] then -1 else 1
  }

  lemma {:induction false} StrCmpLaws(a: seq<byte>, b: seq<byte>)
    ensures StrCmp(a, b) == 0 <==> a == b
    ensures StrCmp(a, b) == -StrCmp(b, a)
    decreases |a|
  {
    if a != [] && b != [] && a[0] == b[0] {
      StrCmpLaws(a[1..], b[1..]);
      assert a == [a[0]] + a[1..] && b == [b[0]] + b[1..];
    }
  }

  lemma {:induction false} StrCmpTransitive(a: seq<byte>, b: seq<byte>, c: seq<byte>)
    requires StrCmp(a, b) <= 0 && StrCmp(b, c) <= 0
    ensures StrCmp(a, c) <= 0
    decreases |a|
  {
    if a != [] && b != [] && c != [] && a[0] == b[0] == c[0] {
      StrCmpTransitive(a[1..], b[1..], c[1..]);
    }
  }

  // ----- the state

  /** What can be held: an open descriptor, or an allocated cipher state at an address. */
  datatype Resource = Fd(fd: int) | Mem(p: nat)

  /** Who holds it; connections and relays are named by their device, entries by their address. */
  datatype Owner = Pending(device: nat) | Listener(entry: nat) | Parked(entry: nat) | Tunnel(device: nat) | Browser(device: nat)

  /** struct radmconn */
  datatype Conn = Conn(sock: int, dec: nat, buf: seq<byte>)

  /**
   * struct radmcli; `accepting`: radmcli_accept_callback is registered.  For the proof it remembers
   * the device it parks, the line that device sent and the clock when that was understood.
   */
  datatype Client = Client(id: seq<byte>, kind: Kind, lSock: int, rSock: int, dec: Option<nat>,
                           device: nat, accepting: bool, deltimer: nat, line: seq<byte>, heard: TQ.TimeVal)

  /**
   * The part of a server relay that matters here; for the proof it counts the bytes received from
   * the device, its line included, and the bytes enciphered for it.
   */
  datatype Link = Link(tsock: int, psock: int, dec: nat, enc: nat, got: nat, put: nat)

  /** The interval of a deletion timer in milliseconds: half an hour. */
  const DELETE_AFTER: nat := 1_800_000

  datatype Server = Server(
    conns: map<nat, Conn>,          // by device
    entries: map<nat, Client>,      // the radmcli structs, by address
    list: seq<nat>,                 // the linked list of entries
    relays: map<nat, Link>,         // by device
    table: map<Resource, Owner>,    // open descriptors and allocated cells, with their holders
    ciphers: map<nat, Cipher>,      // the contents of the cells
    next: nat,                      // names not used yet
    relayed: set<nat>,              // devices ever handed to a relay
    q: TQ.Queue,                    // the timer queue of the process
    clock: TQ.TimeVal,              // what its last pass read
    timeouts: map<nat, nat>)        // the timer structs whose callback is timeout_del, with their contexts

  const EMPTY := Server(map[], map[], [], map[], map[], map[], 0, {}, TQ.EMPTY, TQ.TimeVal(0, 0), map[])

  // ----- the list

  /** radmsrv_find_client: the position of the first matching entry, or |list|. */
  function Find(entries: map<nat, Client>, list: seq<nat>, id: seq<byte>, kind: Kind): (k: nat)
    requires forall c :: c in list ==> c in entries
    ensures k <= |list|
    ensures forall i :: 0 <= i < k ==> entries[list[i]].id != id || entries[list[i]].kind != kind
    ensures k < |list| ==> entries[list[k]].id == id && entries[list[k]].kind == kind
  {
    if list == [] || (entries[list[0]].id == id && entries[list[0]].kind == kind) then 0
    else 1 + Find(entries, list[1..], id, kind)
  }

  /** Where radmsrv_new_client links an entry: before the first greater id. */
  function Slot(entries: map<nat, Client>, list: seq<nat>, id: seq<byte>): (k: nat)
    requires forall c :: c in list ==> c in entries
    ensures k <= |list|
    ensures forall i :: 0 <= i < k ==> StrCmp(entries[list[i]].id, id) <= 0
    ensures k < |list| ==> StrCmp(entries[list[k]].id, id) > 0
  {
    if list == [] || StrCmp(entries[list[0]].id, id) > 0 then 0 else 1 + Slot(entries, list[1..], id)
  }

  function InsertAt(list: seq<nat>, k: nat, c: nat): seq<nat>
    requires k <= |list|
  {
    list[..k] + [c] + list[k..]
  }

  function Without(list: seq<nat>, k: nat): seq<nat>
    requires k < |list|
  {
    list[..k] + list[k + 1..]
  }

  ghost predicate NoDup(list: seq<nat>) {
    forall i, j :: 0 <= i < j < |list| ==> list[i] != list[j]
  }

  /** The list and the structs: every entry is linked once. */
  ghost predicate Linked(s: Server) {
    && (forall c :: c in s.list ==> c in s.entries)
    && (forall c :: c in s.entries ==> c in s.list)
    && NoDup(s.list)
  }

  // ----- the callbacks

  /** radmsrv_accept_callback: a device connected on descriptor sock; p is the cell malloc returned. */
  function DeviceConnects(s: Server, key: seq<U8>, sock: int, p: nat): Server {
    if sock <= 0 || Fd(sock) in s.table || Mem(p) in s.table then s
    else
      var d := s.next;
      s.(conns := s.conns[d := Conn(sock, p, [])],
         table := s.table[Fd(sock) := Pending(d)][Mem(p) := Pending(d)],
         ciphers := s.ciphers[p := Initial(key)],
         next := d + 1)
  }

  /** The error exit of radmsrv_conn_callback. */
  function DropConn(s: Server, d: nat): Server
    requires d in s.conns
  {
    s.(table := s.table - {Fd(s.conns[d].sock), Mem(s.conns[d].dec)}, conns := s.conns - {d})
  }

  /** What an entry gives up when another device is parked in it, or when it is released. */
  function ParkedResources(c: Client): set<Resource> {
    (if c.rSock > 0 then {Fd(c.rSock)} else {}) + (match c.dec case None => {} case Some(p) => {Mem(p)})
  }

  /** Parking a connection in an entry: whatever the entry held before is closed and freed. */
  function Park(s: Server, d: nat, e: nat, now: TQ.TimeVal): Server
    requires d in s.conns && e in s.entries
  {
    var conn, cli := s.conns[d], s.entries[e];
    s.(conns := s.conns - {d},
       entries := s.entries[e := cli.(rSock := conn.sock, dec := Some(conn.dec), device := d, accepting := true,
                                      line := conn.buf, heard := now)],
       table := (s.table - ParkedResources(cli))[Fd(conn.sock) := Parked(e)][Mem(conn.dec) := Parked(e)])
  }

  /** radmsrv_new_client with listening socket l; create_timer returned the struct t, and the clock read `now`. */
  function NewClient(s: Server, id: seq<byte>, kind: Kind, l: int, t: nat, now: TQ.TimeVal): Server
    requires forall c :: c in s.list ==> c in s.entries
  {
    var e := s.next;
    s.(entries := s.entries[e := Client(id, kind, l, 0, None, 0, false, t, [], now)],
       list := InsertAt(s.list, Slot(s.entries, s.list, id), e),
       table := s.table[Fd(l) := Listener(e)],
       next := e + 1,
       q := TQ.Do(TQ.Do(s.q, TQ.OpCreate(t, DELETE_AFTER)), TQ.OpStart(t, 1, now)),
       timeouts := s.timeouts[t := e])
  }

  /** What radmsrv_find_client does to the entry it finds: stop_timer, start_timer. */
  function Touch(s: Server, e: nat, now: TQ.TimeVal): Server
    requires e in s.entries
  {
    var t := s.entries[e].deltimer;
    s.(q := TQ.Do(TQ.Do(s.q, TQ.OpStop(t)), TQ.OpStart(t, 1, now)))
  }

  /** What the system gives radmsrv_new_client: a listening socket, a timer struct, a clock reading. */
  datatype Grant = Grant(listener: Option<int>, timer: nat, now: TQ.TimeVal)

  predicate Granted(s: Server, g: Grant) {
    g.listener.Some? && g.listener.value > 0 && Fd(g.listener.value) !in s.table && g.timer !in s.q.intervals
  }

  /** Find or create the entry and park the connection there; without a listening socket, drop it. */
  function Greet(s: Server, d: nat, id: seq<byte>, kind: Kind, g: Grant): Server
    requires d in s.conns && forall c :: c in s.list ==> c in s.entries
  {
    var k := Find(s.entries, s.list, id, kind);
    if k < |s.list| then Park(Touch(s, s.list[k], g.now), d, s.list[k], g.now)
    else if Granted(s, g) then
      Park(NewClient(s, id, kind, g.listener.value, g.timer, g.now), d, s.next, g.now)
    else DropConn(s, d)
  }

  /** The state after received bytes were deciphered into the connection's buffer. */
  function Buffered(s: Server, d: nat, received: seq<byte>): Server
    requires d in s.conns && s.conns[d].dec in s.ciphers
  {
    var conn := s.conns[d];
    var cipher := s.ciphers[conn.dec];
    s.(conns := s.conns[d := conn.(buf := conn.buf + Crypt(cipher, received))],
       ciphers := s.ciphers[conn.dec := Advance(cipher, |received|)])
  }

  /** radmsrv_conn_callback: recv returned `received`, nothing on an error or end of stream. */
  function ConnReads(s: Server, d: nat, received: seq<byte>, g: Grant): Server
    requires forall c :: c in s.list ==> c in s.entries
  {
    if d !in s.conns || s.conns[d].dec !in s.ciphers then s
    else if received == [] then DropConn(s, d)
    else if |s.conns[d].buf| + |received| > HEADERSIZE then s  // recv returns no more than the room it is given
    else
      var t := Buffered(s, d, received);
      match Judge(t.conns[d].buf)
      case More => t
      case Refuse => DropConn(t, d)
      case Accept(kind, id) => Greet(t, d, id, kind, g)
  }

  /** radmcli_accept_callback of entry e: a browser connected on psock, and m is the cell malloc returned. */
  function BrowserConnects(s: Server, key: seq<U8>, e: nat, psock: int, m: nat): Server {
    if e !in s.entries || !s.entries[e].accepting || s.entries[e].dec.None?
       || psock <= 0 || Fd(psock) in s.table || Mem(m) in s.table then s
    else
      var c := s.entries[e];
      var p := c.dec.value;
      s.(relays := s.relays[c.device := Link(c.rSock, psock, p, m, |c.line|, 0)],
         entries := s.entries[e := c.(rSock := -1, dec := None, accepting := false)],
         table := s.table[Fd(c.rSock) := Tunnel(c.device)][Mem(p) := Tunnel(c.device)]
                         [Fd(psock) := Browser(c.device)][Mem(m) := Browser(c.device)],
         ciphers := s.ciphers[m := Initial(key)],
         relayed := s.relayed + {c.device})
  }

  /** fwd_release of a server relay. */
  function RelayEnds(s: Server, d: nat): Server {
    if d !in s.relays then s
    else
      var l := s.relays[d];
      s.(table := s.table - {Fd(l.tsock), Fd(l.psock), Mem(l.dec), Mem(l.enc)}, relays := s.relays - {d})
  }

  /** Bytes from the device pass through a relay: its first cipher moves by their number. */
  function RelayReads(s: Server, d: nat, n: nat): Server {
    if d !in s.relays || s.relays[d].dec !in s.ciphers then s
    else
      var l := s.relays[d];
      s.(relays := s.relays[d := l.(got := l.got + n)], ciphers := s.ciphers[l.dec := Advance(s.ciphers[l.dec], n)])
  }

  /** Bytes for the device pass through it: its second cipher moves. */
  function RelayWrites(s: Server, d: nat, n: nat): Server {
    if d !in s.relays || s.relays[d].enc !in s.ciphers then s
    else
      var l := s.relays[d];
      s.(relays := s.relays[d := l.(put := l.put + n)], ciphers := s.ciphers[l.enc := Advance(s.ciphers[l.enc], n)])
  }

  /** stop_timer and destroy_timer */
  function Destroyed(q: TQ.Queue, t: nat): TQ.Queue {
    TQ.Do(TQ.Do(q, TQ.OpStop(t)), TQ.OpDestroy(t))
  }

  /** radmsrv_del: the first matching entry is unlinked and released, its timer stopped and destroyed. */
  function Delete(s: Server, id: seq<byte>, kind: Kind): Server
    requires forall c :: c in s.list ==> c in s.entries
  {
    var k := Find(s.entries, s.list, id, kind);
    if k < |s.list| then
      var c := s.entries[s.list[k]];
      s.(list := Without(s.list, k), entries := s.entries - {s.list[k]},
         table := s.table - ({Fd(c.lSock)} + ParkedResources(c)),
         q := Destroyed(s.q, c.deltimer), timeouts := s.timeouts - {c.deltimer})
    else s
  }

  /** timeout_del of entry e. */
  function TimeoutDel(s: Server, e: nat): Server
    requires forall c :: c in s.list ==> c in s.entries
  {
    if e in s.entries then Delete(s, s.entries[e].id, s.entries[e].kind) else s
  }

  /** One turn of the loop in timer_check_timeout: the head expires, and a deletion timer calls timeout_del. */
  function TimerFires(s: Server, now: TQ.TimeVal): Server
    requires forall c :: c in s.list ==> c in s.entries
  {
    if !s.q.locked || !TQ.Overdue(s.q, s.clock) || s.q.armed[0].timer !in s.q.intervals then s
    else
      var t := s.q.armed[0].timer;
      var r := s.(q := TQ.Expire(s.q, now));
      if t in s.timeouts then TimeoutDel(r, s.timeouts[t]) else r
  }

  datatype Event =
    | EvDevice(sock: int, p: nat)
    | EvRead(d: nat, received: seq<byte>, grant: Grant)
    | EvBrowser(e: nat, psock: int, m: nat)
    | EvRelayReads(d: nat, n: nat)
    | EvRelayWrites(d: nat, n: nat)
    | EvRelayEnds(d: nat)
    | EvPassBegins(clock: TQ.TimeVal)
    | EvTimer(now: TQ.TimeVal)
    | EvPassEnds
    | EvOtherTimer(op: TQ.Op)       // what other parts of the process do to their own timers
    | EvDelete(id: seq<byte>, kind: Kind)

  function Step(s: Server, key: seq<U8>, ev: Event): Server
    requires forall c :: c in s.list ==> c in s.entries
  {
    match ev
    case EvDevice(sock, p) => DeviceConnects(s, key, sock, p)
    case EvRead(d, received, g) => ConnReads(s, d, received, g)
    case EvBrowser(e, psock, m) => BrowserConnects(s, key, e, psock, m)
    case EvRelayReads(d, n) => RelayReads(s, d, n)
    case EvRelayWrites(d, n) => RelayWrites(s, d, n)
    case EvRelayEnds(d) => RelayEnds(s, d)
    case EvPassBegins(clock) => if s.q.locked then s else s.(q := s.q.(locked := true), clock := TQ.Sane(clock))
    case EvTimer(now) => TimerFires(s, now)
    case EvPassEnds => if s.q.locked then s.(q := TQ.Finish(s.q)) else s
    case EvOtherTimer(op) => if op.timer in s.timeouts then s else s.(q := TQ.Do(s.q, op))
    case EvDelete(id, kind) => Delete(s, id, kind)
  }

  // ----- what every reachable state satisfies

  /** What the component of a given name refers to. */
  ghost function Refers(s: Server, o: Owner): set<Resource> {
    match o
    case Pending(d) => if d in s.conns then {Fd(s.conns[d].sock), Mem(s.conns[d].dec)} else {}
    case Listener(e) => if e in s.entries then {Fd(s.entries[e].lSock)} else {}
    case Parked(e) => if e in s.entries then ParkedResources(s.entries[e]) else {}
    case Tunnel(d) => if d in s.relays then {Fd(s.relays[d].tsock), Mem(s.relays[d].dec)} else {}
    case Browser(d) => if d in s.relays then {Fd(s.relays[d].psock), Mem(s.relays[d].enc)} else {}
  }

  /** Owner o refers to r exactly when the table says so. */
  ghost predicate Agrees(s: Server, o: Owner, r: Resource) {
    r in Refers(s, o) <==> r in s.table && s.table[r] == o
  }

  /** The table is exactly what the components refer to: nothing shared, nothing forgotten, nothing stale. */
  ghost predicate Owned(s: Server) {
    && (forall o, r :: Agrees(s, o, r))
    && (forall r :: r in s.table && r.Fd? ==> r.fd > 0)
    && (forall r :: r in s.table && r.Mem? ==> r.p in s.ciphers)
  }

  /** An entry accepts browsers exactly while a device is parked. */
  ghost predicate EntryOk(c: Client) {
    if c.accepting then c.rSock > 0 && c.dec.Some? else c.rSock == -1 && c.dec.None?
  }

  /** Names are used once: a device is pending, or parked in one entry, or was relayed. */
  ghost predicate Named(s: Server) {
    && (forall d :: d in s.conns ==> d < s.next && d !in s.relayed)
    && (forall d :: d in s.relays ==> d in s.relayed)
    && (forall d :: d in s.relayed ==> d < s.next)
    && (forall e :: e in s.entries ==> e < s.next)
    && (forall e :: e in s.entries && s.entries[e].accepting ==>
          var d := s.entries[e].device; d < s.next && d !in s.relayed && d !in s.conns)
    && (forall e, f :: e in s.entries && f in s.entries && e != f && s.entries[e].accepting && s.entries[f].accepting ==>
          s.entries[e].device != s.entries[f].device)
  }

  /** The ids along a list. */
  ghost function Ids(entries: map<nat, Client>, list: seq<nat>): (ids: seq<seq<byte>>)
    requires forall c :: c in list ==> c in entries
    ensures |ids| == |list| && forall i :: 0 <= i < |list| ==> ids[i] == entries[list[i]].id
  {
    seq(|list|, i requires 0 <= i < |list| => entries[list[i]].id)
  }

  ghost predicate SortedIds(ids: seq<seq<byte>>) {
    forall i, j :: 0 <= i < j < |ids| ==> StrCmp(ids[i], ids[j]) <= 0
  }

  ghost predicate Sorted(s: Server)
    requires Linked(s)
  {
    SortedIds(Ids(s.entries, s.list))
  }

  ghost predicate Unique(s: Server) {
    forall e, f :: e in s.entries && f in s.entries && e != f ==>
      s.entries[e].id != s.entries[f].id || s.entries[e].kind != s.entries[f].kind
  }

  ghost predicate Listed(s: Server) {
    && Linked(s) && Sorted(s) && Unique(s)
    && forall e :: e in s.entries ==> EntryOk(s.entries[e])
  }

  /** The timer has an entry that fires once, half an hour after the clock. */
  ghost predicate Waits(q: TQ.Queue, t: nat, clock: TQ.TimeVal) {
    Holds(q, TQ.Entry(t, TQ.Due(clock, DELETE_AFTER), 1))
  }

  /** Every deletion timer but x, which is about to be restarted or destroyed, belongs to one entry and waits from its last line on. */
  ghost predicate TimedBut(s: Server, x: Option<nat>) {
    && TQ.Ok(s.q) && TQ.Normal(s.clock)
    && (forall e :: e in s.entries ==> s.entries[e].deltimer in s.timeouts && s.timeouts[s.entries[e].deltimer] == e)
    && (forall t :: t in s.timeouts ==> s.timeouts[t] in s.entries && s.entries[s.timeouts[t]].deltimer == t)
    && (forall t :: t in s.timeouts ==> t in s.q.intervals && s.q.intervals[t] == DELETE_AFTER)
    && (forall t :: t in s.timeouts && Some(t) != x ==> Waits(s.q, t, s.entries[s.timeouts[t]].heard))
  }

  ghost predicate Timed(s: Server) {
    TimedBut(s, None)
  }

  ghost predicate Invariant(s: Server) {
    Listed(s) && Owned(s) && Named(s) && Timed(s)
  }

  // ----- keeping it: who holds what

  lemma DeviceConnectsOwned(s: Server, key: seq<U8>, sock: int, p: nat)
    requires Owned(s) && s.next !in s.conns
    ensures Owned(DeviceConnects(s, key, sock, p))
  {
    hide Initial;
    var t := DeviceConnects(s, key, sock, p);
    if t != s {
      forall o, r ensures Agrees(t, o, r) {
        assert Agrees(s, o, r);
      }
    }
  }

  lemma DropConnOwned(s: Server, d: nat)
    requires Owned(s) && d in s.conns
    ensures Owned(DropConn(s, d))
  {
    var t := DropConn(s, d);
    forall o, r ensures Agrees(t, o, r) {
      assert Agrees(s, o, r) && Agrees(s, Pending(d), r);
    }
  }

  lemma RelayEndsOwned(s: Server, d: nat)
    requires Owned(s)
    ensures Owned(RelayEnds(s, d))
  {
    var t := RelayEnds(s, d);
    if d in s.relays {
      forall o, r ensures Agrees(t, o, r) {
        assert Agrees(s, o, r) && Agrees(s, Tunnel(d), r) && Agrees(s, Browser(d), r);
      }
    }
  }

  /** While a new entry is being filled it holds no device and its rSock is 0, as memset left it. */
  ghost predicate EntryForm(c: Client) {
    if c.accepting then c.rSock > 0 && c.dec.Some? else c.rSock <= 0 && c.dec.None?
  }

  lemma ParkOwned(s: Server, d: nat, e: nat, now: TQ.TimeVal)
    requires Owned(s) && d in s.conns && e in s.entries && EntryForm(s.entries[e])
    ensures Owned(Park(s, d, e, now))
  {
    var t := Park(s, d, e, now);
    var conn := s.conns[d];
    assert Agrees(s, Pending(d), Fd(conn.sock)) && Agrees(s, Pending(d), Mem(conn.dec));
    assert Agrees(s, Parked(e), Fd(conn.sock)) && Agrees(s, Parked(e), Mem(conn.dec));
    forall o, r ensures Agrees(t, o, r) {
      assert Agrees(s, o, r) && Agrees(s, Pending(d), r) && Agrees(s, Parked(e), r);
    }
  }

  lemma NewClientOwned(s: Server, id: seq<byte>, kind: Kind, l: int, t: nat, now: TQ.TimeVal)
    requires Owned(s) && Linked(s) && s.next !in s.entries && l > 0 && Fd(l) !in s.table
    ensures Owned(NewClient(s, id, kind, l, t, now))
  {
    hide TQ.Do, Slot, InsertAt;
    var u := NewClient(s, id, kind, l, t, now);
    forall o, r ensures Agrees(u, o, r) {
      assert Agrees(s, o, r);
    }
  }

  lemma BrowserConnectsOwned(s: Server, key: seq<U8>, e: nat, psock: int, m: nat)
    requires Owned(s)
    requires e in s.entries ==> EntryOk(s.entries[e]) && (s.entries[e].accepting ==> s.entries[e].device !in s.relays)
    ensures Owned(BrowserConnects(s, key, e, psock, m))
  {
    hide Initial;
    var t := BrowserConnects(s, key, e, psock, m);
    if t != s {
      var c := s.entries[e];
      assert Agrees(s, Parked(e), Fd(c.rSock)) && Agrees(s, Parked(e), Mem(c.dec.value));
      forall o, r ensures Agrees(t, o, r) {
        assert Agrees(s, o, r) && Agrees(s, Parked(e), r);
      }
    }
  }

  lemma DeleteOwned(s: Server, id: seq<byte>, kind: Kind)
    requires Owned(s) && Linked(s)
    requires forall e :: e in s.entries ==> EntryOk(s.entries[e])
    ensures Owned(Delete(s, id, kind))
  {
    hide Find;
    var t := Delete(s, id, kind);
    var k := Find(s.entries, s.list, id, kind);
    if k < |s.list| {
      var e := s.list[k];
      forall o, r ensures Agrees(t, o, r) {
        assert Agrees(s, o, r) && Agrees(s, Listener(e), r) && Agrees(s, Parked(e), r);
      }
    }
  }

  // ----- keeping it: names and the list

  /** The list invariants, with one entry possibly still empty as radmsrv_new_client leaves it. */
  ghost predicate ListedExcept(s: Server, x: nat) {
    && Linked(s) && Sorted(s) && Unique(s)
    && (forall e :: e in s.entries && e != x ==> EntryOk(s.entries[e]))
    && (x in s.entries ==> EntryForm(s.entries[x]))
  }

  lemma InsertAtFacts(list: seq<nat>, k: nat, c: nat)
    requires k <= |list| && NoDup(list) && c !in list
    ensures NoDup(InsertAt(list, k, c))
    ensures forall x :: x in InsertAt(list, k, c) <==> x in list || x == c
  {
    var r := InsertAt(list, k, c);
    assert r[k] == c;
    forall x | x in list ensures x in r {
      var i :| 0 <= i < |list| && list[i] == x;
      assert r[if i < k then i else i + 1] == x;
    }
  }

  lemma WithoutFacts(list: seq<nat>, k: nat)
    requires k < |list| && NoDup(list)
    ensures NoDup(Without(list, k))
    ensures forall x :: x in Without(list, k) <==> x in list && x != list[k]
  {
    var r := Without(list, k);
    forall x | x in list && x != list[k] ensures x in r {
      var i :| 0 <= i < |list| && list[i] == x;
      assert r[if i < k then i else i - 1] == x;
    }
  }

  /** Inserting an id before the first greater one keeps the ids sorted. */
  lemma InsertSorted(ids: seq<seq<byte>>, k: nat, id: seq<byte>)
    requires SortedIds(ids) && k <= |ids|
    requires forall i :: 0 <= i < k ==> StrCmp(ids[i], id) <= 0
    requires k < |ids| ==> StrCmp(ids[k], id) > 0
    ensures SortedIds(ids[..k] + [id] + ids[k..])
  {
    var r := ids[..k] + [id] + ids[k..];
    forall i, j | 0 <= i < j < |r| ensures StrCmp(r[i], r[j]) <= 0 {
      if i == k {
        StrCmpLaws(ids[k], id);
        if j - 1 > k {
          StrCmpTransitive(id, ids[k], ids[j - 1]);
        }
      }
    }
  }

  lemma NewClientLinked(s: Server, id: seq<byte>, kind: Kind, l: int, t: nat, now: TQ.TimeVal)
    requires Linked(s) && s.next !in s.entries
    ensures Linked(NewClient(s, id, kind, l, t, now))
  {
    hide Slot;
    InsertAtFacts(s.list, Slot(s.entries, s.list, id), s.next);
  }

  lemma InsertIds(before: map<nat, Client>, after: map<nat, Client>, list: seq<nat>, k: nat, e: nat, id: seq<byte>)
    requires forall c :: c in list ==> c in before && c in after && after[c].id == before[c].id
    requires e in after && after[e].id == id && k <= |list|
    ensures forall c :: c in InsertAt(list, k, e) ==> c in after
    ensures var ids := Ids(before, list); Ids(after, InsertAt(list, k, e)) == ids[..k] + [id] + ids[k..]
  {
  }

  lemma NewClientSorted(s: Server, id: seq<byte>, kind: Kind, l: int, t: nat, now: TQ.TimeVal)
    requires Linked(s) && Sorted(s) && s.next !in s.entries
    ensures Linked(NewClient(s, id, kind, l, t, now)) && Sorted(NewClient(s, id, kind, l, t, now))
  {
    NewClientLinked(s, id, kind, l, t, now);
    hide StrCmp, Slot, Linked, SortedIds;
    var r := NewClient(s, id, kind, l, t, now);
    var k := Slot(s.entries, s.list, id);
    var ids := Ids(s.entries, s.list);
    InsertSorted(ids, k, id);
    InsertIds(s.entries, r.entries, s.list, k, s.next, id);
  }

  lemma FreshPair(s: Server, id: seq<byte>, kind: Kind)
    requires Linked(s) && Find(s.entries, s.list, id, kind) == |s.list|
    ensures forall e :: e in s.entries ==> s.entries[e].id != id || s.entries[e].kind != kind
  {
    hide Find;
    forall e | e in s.entries
      ensures s.entries[e].id != id || s.entries[e].kind != kind
    {
      var i :| 0 <= i < |s.list| && s.list[i] == e;
    }
  }

  lemma NewClientUnique(s: Server, id: seq<byte>, kind: Kind, l: int, t: nat, now: TQ.TimeVal)
    requires Linked(s) && Unique(s)
    requires Find(s.entries, s.list, id, kind) == |s.list|
    ensures Unique(NewClient(s, id, kind, l, t, now))
  {
    FreshPair(s, id, kind);
    hide Slot, InsertAt, Linked, Find, EntryOk;
  }

  lemma NewClientListed(s: Server, id: seq<byte>, kind: Kind, l: int, t: nat, now: TQ.TimeVal)
    requires Listed(s) && Named(s)
    requires Find(s.entries, s.list, id, kind) == |s.list|
    ensures ListedExcept(NewClient(s, id, kind, l, t, now), s.next)
  {
    assert s.next !in s.entries;
    NewClientSorted(s, id, kind, l, t, now);
    NewClientUnique(s, id, kind, l, t, now);
    hide Named, Sorted, Slot, InsertAt, Linked, Find, Unique;
  }

  lemma NewClientNamed(s: Server, id: seq<byte>, kind: Kind, l: int, t: nat, now: TQ.TimeVal)
    requires Linked(s) && Named(s)
    ensures Named(NewClient(s, id, kind, l, t, now))
  {
    hide Slot, InsertAt;
  }

  lemma ParkListed(s: Server, d: nat, e: nat, now: TQ.TimeVal)
    requires d in s.conns && s.conns[d].sock > 0 && e in s.entries
    requires ListedExcept(s, e)
    ensures Listed(Park(s, d, e, now))
  {
    hide SortedIds, ParkedResources;
    assert Ids(Park(s, d, e, now).entries, s.list) == Ids(s.entries, s.list);
  }

  lemma ParkNamed(s: Server, d: nat, e: nat, now: TQ.TimeVal)
    requires d in s.conns && e in s.entries && Named(s)
    ensures Named(Park(s, d, e, now))
  {
    hide ParkedResources;
  }

  lemma DropSorted(ids: seq<seq<byte>>, k: nat)
    requires SortedIds(ids) && k < |ids|
    ensures SortedIds(ids[..k] + ids[k + 1..])
  {
    hide StrCmp;
  }

  lemma DropIds(entries: map<nat, Client>, list: seq<nat>, k: nat)
    requires k < |list| && NoDup(list) && forall c :: c in list ==> c in entries
    ensures forall c :: c in Without(list, k) ==> c in entries - {list[k]}
    ensures var ids := Ids(entries, list);
            Ids(entries - {list[k]}, Without(list, k)) == ids[..k] + ids[k + 1..]
  {
    WithoutFacts(list, k);
    hide NoDup;
  }

  lemma DeleteLinked(s: Server, k: nat, t: Server)
    requires Linked(s) && k < |s.list|
    requires t.list == Without(s.list, k) && t.entries == s.entries - {s.list[k]}
    ensures Linked(t)
  {
    WithoutFacts(s.list, k);
    hide NoDup, Without;
  }

  lemma DeleteSorted(s: Server, k: nat, t: Server)
    requires Linked(s) && Sorted(s) && k < |s.list|
    requires t.list == Without(s.list, k) && t.entries == s.entries - {s.list[k]}
    ensures Linked(t) && Sorted(t)
  {
    DeleteLinked(s, k, t);
    hide SortedIds, Without, NoDup;
    DropIds(s.entries, s.list, k);
    DropSorted(Ids(s.entries, s.list), k);
  }

  lemma DeleteListed(s: Server, id: seq<byte>, kind: Kind)
    requires Listed(s) && Named(s)
    ensures Listed(Delete(s, id, kind)) && Named(Delete(s, id, kind))
  {
    hide Find, Sorted, ParkedResources;
    var t := Delete(s, id, kind);
    var k := Find(s.entries, s.list, id, kind);
    if k < |s.list| {
      DeleteSorted(s, k, t);
    }
  }

  lemma BrowserConnectsListed(s: Server, key: seq<U8>, e: nat, psock: int, m: nat)
    requires Listed(s) && Named(s)
    ensures Listed(BrowserConnects(s, key, e, psock, m)) && Named(BrowserConnects(s, key, e, psock, m))
  {
    hide SortedIds, NoDup, Initial;
    assert Ids(BrowserConnects(s, key, e, psock, m).entries, s.list) == Ids(s.entries, s.list);
  }

  // ----- keeping it: the deletion timers

  lemma TimedSame(s: Server, r: Server, x: Option<nat>)
    requires TimedBut(s, x) && r.q == s.q && r.clock == s.clock && r.timeouts == s.timeouts && r.entries.Keys == s.entries.Keys
    requires forall e :: e in s.entries ==>
               r.entries[e].deltimer == s.entries[e].deltimer && r.entries[e].heard == s.entries[e].heard
    ensures TimedBut(r, x)
  {
    hide TQ.Ok, Waits;
  }

  /** Operations on other timers leave it waiting. */
  lemma WaitsDo(q: TQ.Queue, op: TQ.Op, t: nat, clock: TQ.TimeVal)
    requires Waits(q, t, clock) && op.timer != t
    ensures Waits(TQ.Do(q, op), t, clock)
  {
    hide TQ.Do, TQ.Due, Holds;
    DoHolds(q, op, TQ.Entry(t, TQ.Due(clock, DELETE_AFTER), 1));
  }

  /** Starting it makes it wait from then on. */
  lemma WaitsStarted(q: TQ.Queue, t: nat, now: TQ.TimeVal)
    requires t in q.intervals && q.intervals[t] == DELETE_AFTER
    ensures Waits(TQ.Do(q, TQ.OpStart(t, 1, now)), t, now)
  {
    hide TQ.Do, TQ.Due, Holds;
    StartHolds(q, t, 1, now);
  }

  /** Two operations in a row. */
  lemma TwiceFacts(q: TQ.Queue, first: TQ.Op, second: TQ.Op)
    requires TQ.Ok(q)
    ensures TQ.Ok(TQ.Do(TQ.Do(q, first), second))
  {
    hide TQ.Ok, TQ.Do;
    TQ.DoOk(q, first);
    TQ.DoOk(TQ.Do(q, first), second);
  }

  /** The entry's timer now waits from this clock on; its memory of the last line follows when the device is parked. */
  lemma TouchTimed(s: Server, e: nat, now: TQ.TimeVal)
    requires Timed(s) && e in s.entries
    ensures TimedBut(Touch(s, e, now), Some(s.entries[e].deltimer))
    ensures Waits(Touch(s, e, now).q, s.entries[e].deltimer, now)
  {
    hide TQ.Ok, TQ.Do, Waits;
    var t := s.entries[e].deltimer;
    var q := TQ.Do(s.q, TQ.OpStop(t));
    TwiceFacts(s.q, TQ.OpStop(t), TQ.OpStart(t, 1, now));
    DoIntervals(s.q, TQ.OpStop(t));
    DoIntervals(q, TQ.OpStart(t, 1, now));
    WaitsStarted(q, t, now);
    forall x | x in s.timeouts && x != t
      ensures Waits(TQ.Do(q, TQ.OpStart(t, 1, now)), x, s.entries[s.timeouts[x]].heard)
    {
      WaitsDo(s.q, TQ.OpStop(t), x, s.entries[s.timeouts[x]].heard);
      WaitsDo(q, TQ.OpStart(t, 1, now), x, s.entries[s.timeouts[x]].heard);
    }
  }

  lemma NewClientTimed(s: Server, id: seq<byte>, kind: Kind, l: int, t: nat, now: TQ.TimeVal)
    requires Linked(s) && Timed(s) && s.next !in s.entries && t !in s.q.intervals
    ensures Timed(NewClient(s, id, kind, l, t, now))
  {
    hide TQ.Ok, TQ.Do, Waits, InsertAt, Slot;
    var q := TQ.Do(s.q, TQ.OpCreate(t, DELETE_AFTER));
    TwiceFacts(s.q, TQ.OpCreate(t, DELETE_AFTER), TQ.OpStart(t, 1, now));
    DoIntervals(s.q, TQ.OpCreate(t, DELETE_AFTER));
    DoIntervals(q, TQ.OpStart(t, 1, now));
    WaitsStarted(q, t, now);
    forall x | x in s.timeouts
      ensures x != t && Waits(TQ.Do(q, TQ.OpStart(t, 1, now)), x, s.entries[s.timeouts[x]].heard)
    {
      WaitsDo(s.q, TQ.OpCreate(t, DELETE_AFTER), x, s.entries[s.timeouts[x]].heard);
      WaitsDo(q, TQ.OpStart(t, 1, now), x, s.entries[s.timeouts[x]].heard);
    }
  }

  /** Deleting an entry destroys its timer; it need not have been waiting, as when it has just expired. */
  lemma DeleteTimed(s: Server, id: seq<byte>, kind: Kind)
    requires Linked(s)
    requires var k := Find(s.entries, s.list, id, kind);
             TimedBut(s, if k < |s.list| then Some(s.entries[s.list[k]].deltimer) else None)
    ensures Timed(Delete(s, id, kind))
  {
    hide TQ.Ok, TQ.Do, Waits, Find, ParkedResources, NoDup;
    var k := Find(s.entries, s.list, id, kind);
    if k < |s.list| {
      var t := s.entries[s.list[k]].deltimer;
      var q := TQ.Do(s.q, TQ.OpStop(t));
      TwiceFacts(s.q, TQ.OpStop(t), TQ.OpDestroy(t));
      DoIntervals(s.q, TQ.OpStop(t));
      DoIntervals(q, TQ.OpDestroy(t));
      forall x | x in s.timeouts && x != t
        ensures Waits(Destroyed(s.q, t), x, s.entries[s.timeouts[x]].heard)
      {
        WaitsDo(s.q, TQ.OpStop(t), x, s.entries[s.timeouts[x]].heard);
        WaitsDo(q, TQ.OpDestroy(t), x, s.entries[s.timeouts[x]].heard);
      }
    }
  }

  lemma OtherTimerTimed(s: Server, op: TQ.Op)
    requires Timed(s) && op.timer !in s.timeouts
    ensures Timed(s.(q := TQ.Do(s.q, op)))
  {
    hide TQ.Ok, TQ.Do, Waits;
    TQ.DoOk(s.q, op);
    DoIntervals(s.q, op);
    forall x | x in s.timeouts ensures Waits(TQ.Do(s.q, op), x, s.entries[s.timeouts[x]].heard) {
      WaitsDo(s.q, op, x, s.entries[s.timeouts[x]].heard);
    }
  }

  lemma PassBeginsTimed(s: Server, clock: TQ.TimeVal)
    requires Timed(s) && TQ.Normal(clock)
    ensures Timed(s.(q := s.q.(locked := true), clock := clock))
  {
    var q := s.q.(locked := true);
    forall x | x in s.timeouts ensures Waits(q, x, s.entries[s.timeouts[x]].heard) {
      assert Waits(s.q, x, s.entries[s.timeouts[x]].heard);
    }
    assert TQ.Ok(q);
    hide Waits, TQ.Ok;
  }

  lemma PassEndsTimed(s: Server)
    requires Timed(s)
    ensures Timed(s.(q := TQ.Finish(s.q)))
  {
    TQ.MergeOk(s.q);
    forall x | x in s.timeouts ensures Waits(TQ.Finish(s.q), x, s.entries[s.timeouts[x]].heard) {
      var clock := s.entries[s.timeouts[x]].heard;
      assert Waits(s.q, x, clock);
      FinishHolds(s.q, TQ.Entry(x, TQ.Due(clock, DELETE_AFTER), 1));
    }
    hide TQ.Ok, TQ.Merge, Waits, TQ.Due, Holds;
  }

  lemma ExpireIntervals(q: TQ.Queue, now: TQ.TimeVal)
    requires q.armed != [] && q.armed[0].timer in q.intervals
    ensures TQ.Expire(q, now).intervals == q.intervals
  {
  }

  /** The head has expired: every other timer waits as before. */
  lemma ExpireTimed(s: Server, now: TQ.TimeVal)
    requires Timed(s) && s.q.locked && s.q.armed != [] && s.q.armed[0].timer in s.q.intervals
    ensures TimedBut(s.(q := TQ.Expire(s.q, now)), Some(s.q.armed[0].timer))
  {
    TQ.ExpireOk(s.q, now);
    ExpireIntervals(s.q, now);
    forall x | x in s.timeouts && x != s.q.armed[0].timer
      ensures Waits(TQ.Expire(s.q, now), x, s.entries[s.timeouts[x]].heard)
    {
      var clock := s.entries[s.timeouts[x]].heard;
      assert Waits(s.q, x, clock);
      ExpireHolds(s.q, now, TQ.Entry(x, TQ.Due(clock, DELETE_AFTER), 1));
    }
    hide TQ.Ok, TQ.Expire, Waits, TQ.Due, Holds;
  }

  /** An entry is found by its own id and kind, so an expiring timer deletes the entry it belongs to. */
  lemma FindsItself(s: Server, e: nat) returns (i: nat)
    requires Listed(s) && e in s.entries
    ensures i < |s.list| && s.list[i] == e && Find(s.entries, s.list, s.entries[e].id, s.entries[e].kind) == i
  {
    hide SortedIds, EntryOk;
    i :| 0 <= i < |s.list| && s.list[i] == e;
    var k := Find(s.entries, s.list, s.entries[e].id, s.entries[e].kind);
  }

  /** An expired entry is deleted with its timer. */
  lemma ExpiredTimed(s: Server, e: nat)
    requires Listed(s) && e in s.entries && TimedBut(s, Some(s.entries[e].deltimer))
    ensures Timed(TimeoutDel(s, e))
  {
    var i := FindsItself(s, e);
    hide Sorted, Unique, EntryOk, NoDup, TQ.Ok, Waits, Find, Delete, TimedBut;
    DeleteTimed(s, s.entries[e].id, s.entries[e].kind);
  }

  lemma ListedSame(s: Server, r: Server)
    requires Listed(s) && r.entries == s.entries && r.list == s.list
    ensures Listed(r)
  {
    hide SortedIds, NoDup, EntryOk;
  }

  lemma TimersEntry(s: Server, t: nat)
    requires Timed(s) && t in s.timeouts
    ensures s.timeouts[t] in s.entries && s.entries[s.timeouts[t]].deltimer == t
  {
    hide TQ.Ok, Waits;
  }

  /** A firing, deletion or not, leaves every deletion timer live that still has an entry. */
  lemma TimerFiresTimed(s: Server, now: TQ.TimeVal)
    requires Listed(s) && Timed(s)
    ensures Timed(TimerFires(s, now))
  {
    if s.q.locked && TQ.Overdue(s.q, s.clock) && s.q.armed[0].timer in s.q.intervals {
      var t, r := s.q.armed[0].timer, s.(q := TQ.Expire(s.q, now));
      ExpireTimed(s, now);
      ListedSame(s, r);
      if t in s.timeouts {
        TimersEntry(s, t);
        hide Listed, TimedBut, TQ.Expire, TimeoutDel;
        ExpiredTimed(r, s.timeouts[t]);
      } else {
        hide Listed, TQ.Ok, Waits, TQ.Expire, TQ.Overdue;
      }
    }
  }

  // ----- keeping it: the ciphers

  /** Component o has a cipher in cell p that has run over n bytes. */
  ghost predicate HasCount(s: Server, o: Owner, p: nat, n: nat) {
    match o
    case Pending(d) => d in s.conns && s.conns[d].dec == p && |s.conns[d].buf| == n
    case Listener(e) => false
    case Parked(e) => e in s.entries && s.entries[e].dec == Some(p) && |s.entries[e].line| == n
    case Tunnel(d) => d in s.relays && s.relays[d].dec == p && s.relays[d].got == n
    case Browser(d) => d in s.relays && s.relays[d].enc == p && s.relays[d].put == n
  }

  /** Every cipher is the initial one advanced by the bytes its component counts. */
  ghost predicate Counted(s: Server, key: seq<U8>) {
    forall o, p, n :: HasCount(s, o, p, n) ==> p in s.ciphers && s.ciphers[p] == Advance(Initial(key), n)
  }

  /** A pending connection has no whole line; an entry that accepts browsers is the one its device's line asked for. */
  ghost predicate LinesOk(s: Server) {
    && (forall d :: d in s.conns ==> s.conns[d].buf == [] || Judge(s.conns[d].buf) == More)
    && (forall e :: e in s.entries && s.entries[e].accepting ==>
          s.entries[e].line != [] && Judge(s.entries[e].line) == Accept(s.entries[e].kind, s.entries[e].id))
  }

  ghost predicate Deciphers(s: Server, key: seq<U8>) {
    Counted(s, key) && LinesOk(s)
  }

  lemma HeldBy(s: Server, o: Owner, p: nat, n: nat)
    requires Owned(s) && HasCount(s, o, p, n)
    ensures Mem(p) in s.table && s.table[Mem(p)] == o
  {
    assert Agrees(s, o, Mem(p));
  }

  /** A component's own cipher moves by k bytes, and its count with it. */
  lemma AdvancedCounted(s: Server, key: seq<U8>, o: Owner, p: nat, n: nat, k: nat, r: Server)
    requires Owned(s) && Counted(s, key) && HasCount(s, o, p, n)
    requires r.ciphers == s.ciphers[p := Advance(s.ciphers[p], k)]
    requires HasCount(r, o, p, n + k)
    requires forall o', p', n' :: HasCount(r, o', p', n') ==> if o' == o then p' == p && n' == n + k else HasCount(s, o', p', n')
    ensures Counted(r, key)
  {
    hide Advance, HasCount, Owned, Initial;
    AdvanceAdd(Initial(key), n, k);
    forall o', p', n' | HasCount(r, o', p', n')
      ensures p' in r.ciphers && r.ciphers[p'] == Advance(Initial(key), n')
    {
      HeldBy(s, o, p, n);
      if o' != o {
        HeldBy(s, o', p', n');
      }
    }
  }

  lemma BufferedDeciphers(s: Server, key: seq<U8>, d: nat, received: seq<byte>)
    requires Owned(s) && Counted(s, key) && d in s.conns && s.conns[d].dec in s.ciphers
    ensures Counted(Buffered(s, d, received), key)
  {
    hide Crypt, Advance, Owned, Initial;
    AdvancedCounted(s, key, Pending(d), s.conns[d].dec, |s.conns[d].buf|, |received|, Buffered(s, d, received));
  }

  lemma RelayMovesDeciphers(s: Server, key: seq<U8>, d: nat, n: nat)
    requires Owned(s) && Counted(s, key)
    ensures Counted(RelayReads(s, d, n), key) && Counted(RelayWrites(s, d, n), key)
  {
    hide Crypt, Advance, Owned, Initial;
    if d in s.relays {
      var l := s.relays[d];
      assert HasCount(s, Tunnel(d), l.dec, l.got) && HasCount(s, Browser(d), l.enc, l.put);
      AdvancedCounted(s, key, Tunnel(d), l.dec, l.got, n, RelayReads(s, d, n));
      AdvancedCounted(s, key, Browser(d), l.enc, l.put, n, RelayWrites(s, d, n));
    }
  }

  /** A new cell, not held by anyone, gets an initial cipher. */
  lemma FreshCounted(s: Server, key: seq<U8>, p: nat, r: Server)
    requires Owned(s) && Counted(s, key) && Mem(p) !in s.table
    requires r.ciphers == s.ciphers[p := Initial(key)]
    requires forall o, p', n :: HasCount(r, o, p', n) ==> (p' == p && n == 0) || exists o' :: HasCount(s, o', p', n)
    ensures Counted(r, key)
  {
    hide HasCount, Owned, Initial;
    forall o, p', n | HasCount(r, o, p', n)
      ensures p' in r.ciphers && r.ciphers[p'] == Advance(Initial(key), n)
    {
      if !(p' == p && n == 0) {
        var o' :| HasCount(s, o', p', n);
        HeldBy(s, o', p', n);
      }
    }
  }

  lemma DeviceConnectsDeciphers(s: Server, key: seq<U8>, sock: int, p: nat)
    requires Owned(s) && Deciphers(s, key)
    ensures Deciphers(DeviceConnects(s, key, sock, p), key)
  {
    hide Owned, Initial, Judge;
    var r := DeviceConnects(s, key, sock, p);
    if r != s {
      forall o, p', n | HasCount(r, o, p', n) ensures (p' == p && n == 0) || HasCount(s, o, p', n) {
      }
      FreshCounted(s, key, p, r);
    }
  }

  lemma BrowserConnectsDeciphers(s: Server, key: seq<U8>, e: nat, psock: int, m: nat)
    requires Owned(s) && Deciphers(s, key)
    ensures Deciphers(BrowserConnects(s, key, e, psock, m), key)
  {
    hide Owned, Initial, Judge;
    var r := BrowserConnects(s, key, e, psock, m);
    if r != s {
      var c := s.entries[e];
      assert HasCount(s, Parked(e), c.dec.value, |c.line|);
      forall o, p', n | HasCount(r, o, p', n)
        ensures (p' == m && n == 0) || HasCount(s, o, p', n) || HasCount(s, Parked(e), p', n)
      {
      }
      FreshCounted(s, key, m, r);
    }
  }

  /** Nothing but the holders change. */
  lemma MovedCounted(s: Server, key: seq<U8>, r: Server)
    requires Counted(s, key) && r.ciphers == s.ciphers
    requires forall o, p, n :: HasCount(r, o, p, n) ==> exists o' :: HasCount(s, o', p, n)
    ensures Counted(r, key)
  {
    hide HasCount, Initial, Advance;
    forall o, p, n | HasCount(r, o, p, n)
      ensures p in r.ciphers && r.ciphers[p] == Advance(Initial(key), n)
    {
      var o' :| HasCount(s, o', p, n);
    }
  }

  lemma ParkDeciphers(s: Server, key: seq<U8>, d: nat, e: nat, now: TQ.TimeVal)
    requires Counted(s, key) && d in s.conns && e in s.entries
    ensures Counted(Park(s, d, e, now), key)
  {
    hide Initial, Judge, ParkedResources;
    var r := Park(s, d, e, now);
    forall o, p, n | HasCount(r, o, p, n) ensures HasCount(s, o, p, n) || HasCount(s, Pending(d), p, n) {
    }
    MovedCounted(s, key, r);
  }

  lemma FewerCounted(s: Server, key: seq<U8>, r: Server)
    requires Counted(s, key) && r.ciphers == s.ciphers
    requires forall o, p, n :: HasCount(r, o, p, n) ==> HasCount(s, o, p, n)
    ensures Counted(r, key)
  {
    hide HasCount, Initial, Advance;
    MovedCounted(s, key, r);
  }

  // ----- every event keeps the invariant

  /** Only the queue and the clock change. */
  lemma ClockOk(s: Server, q: TQ.Queue, clock: TQ.TimeVal)
    requires Listed(s) && Owned(s) && Named(s)
    ensures var r := s.(q := q, clock := clock); Listed(r) && Owned(r) && Named(r)
  {
    hide SortedIds;
    var r := s.(q := q, clock := clock);
    forall o, x ensures Agrees(r, o, x) {
      assert Agrees(s, o, x);
    }
  }

  lemma QueueOk(s: Server, q: TQ.Queue)
    requires Listed(s) && Owned(s) && Named(s)
    ensures var r := s.(q := q); Listed(r) && Owned(r) && Named(r)
  {
    hide Listed, Owned, Named;
    ClockOk(s, q, s.clock);
  }

  lemma TouchKeeps(s: Server, e: nat, now: TQ.TimeVal)
    requires Invariant(s) && e in s.entries
    ensures var r := Touch(s, e, now);
            && r == s.(q := r.q) && Listed(r) && Owned(r) && Named(r)
            && TimedBut(r, Some(s.entries[e].deltimer)) && Waits(r.q, s.entries[e].deltimer, now)
  {
    TouchTimed(s, e, now);
    QueueOk(s, Touch(s, e, now).q);
    hide Listed, Owned, Named, TimedBut, Waits, TQ.Do;
  }

  /** Parking a device remembers the clock from which the entry's timer already waits. */
  lemma ParkTimed(s: Server, d: nat, e: nat, now: TQ.TimeVal)
    requires d in s.conns && e in s.entries
    requires TimedBut(s, Some(s.entries[e].deltimer)) && Waits(s.q, s.entries[e].deltimer, now)
    ensures Timed(Park(s, d, e, now))
  {
    hide ParkedResources, TQ.Ok, Waits;
  }

  lemma SockPositive(s: Server, d: nat)
    requires Owned(s) && d in s.conns
    ensures s.conns[d].sock > 0 && s.conns[d].dec in s.ciphers
  {
    assert Agrees(s, Pending(d), Fd(s.conns[d].sock)) && Agrees(s, Pending(d), Mem(s.conns[d].dec));
  }

  lemma ParkOk(s: Server, d: nat, e: nat, now: TQ.TimeVal)
    requires ListedExcept(s, e) && Owned(s) && Named(s)
    requires d in s.conns && e in s.entries && EntryForm(s.entries[e])
    requires TimedBut(s, Some(s.entries[e].deltimer)) && Waits(s.q, s.entries[e].deltimer, now)
    ensures Invariant(Park(s, d, e, now))
  {
    hide Owned, Listed, ListedExcept, Named, TimedBut, Waits, Park, EntryForm;
    SockPositive(s, d);
    ParkOwned(s, d, e, now);
    ParkListed(s, d, e, now);
    ParkNamed(s, d, e, now);
    ParkTimed(s, d, e, now);
  }

  lemma NewClientKeeps(s: Server, id: seq<byte>, kind: Kind, l: int, t: nat, now: TQ.TimeVal)
    requires Linked(s) && s.next !in s.entries
    ensures var r := NewClient(s, id, kind, l, t, now);
            r.conns == s.conns && s.next in r.entries && EntryForm(r.entries[s.next])
  {
  }

  lemma DropConnNamed(s: Server, d: nat)
    requires Named(s) && d in s.conns
    ensures Named(DropConn(s, d))
  {
  }

  lemma DropConnOk(s: Server, d: nat)
    requires Invariant(s) && d in s.conns
    ensures Invariant(DropConn(s, d))
  {
    hide Owned, Listed, Named, TimedBut;
    DropConnOwned(s, d);
    DropConnNamed(s, d);
    ListedSame(s, DropConn(s, d));
    TimedSame(s, DropConn(s, d), None);
  }

  lemma NoneBut(s: Server, x: Option<nat>)
    requires Timed(s)
    ensures TimedBut(s, x)
  {
    hide TQ.Ok, Waits;
  }

  lemma NewClientWaits(s: Server, id: seq<byte>, kind: Kind, l: int, t: nat, now: TQ.TimeVal)
    requires Linked(s) && Timed(NewClient(s, id, kind, l, t, now))
    ensures var r := NewClient(s, id, kind, l, t, now);
            && s.next in r.entries && r.entries[s.next].deltimer == t && Waits(r.q, t, now)
            && TimedBut(r, Some(r.entries[s.next].deltimer))
  {
    var r := NewClient(s, id, kind, l, t, now);
    assert r.entries[s.next].heard == now;
    NoneBut(r, Some(t));
    hide TQ.Ok, TQ.Do, Waits, InsertAt, Slot, NoDup;
  }

  lemma GreetOk(s: Server, d: nat, id: seq<byte>, kind: Kind, g: Grant)
    requires Invariant(s) && d in s.conns
    ensures Invariant(Greet(s, d, id, kind, g))
  {
    hide Owned, Refers, Find, Slot, StrCmp, Park, NewClient, ParkedResources, TimedBut, Waits, Touch;
    SockPositive(s, d);
    var k := Find(s.entries, s.list, id, kind);
    if k < |s.list| {
      TouchKeeps(s, s.list[k], g.now);
      ParkOk(Touch(s, s.list[k], g.now), d, s.list[k], g.now);
    } else if Granted(s, g) {
      NewClientOwned(s, id, kind, g.listener.value, g.timer, g.now);
      NewClientListed(s, id, kind, g.listener.value, g.timer, g.now);
      NewClientNamed(s, id, kind, g.listener.value, g.timer, g.now);
      NewClientKeeps(s, id, kind, g.listener.value, g.timer, g.now);
      NewClientTimed(s, id, kind, g.listener.value, g.timer, g.now);
      NewClientWaits(s, id, kind, g.listener.value, g.timer, g.now);
      ParkOk(NewClient(s, id, kind, g.listener.value, g.timer, g.now), d, s.next, g.now);
    } else {
      DropConnOk(s, d);
    }
  }

  lemma BufferedNamed(s: Server, d: nat, received: seq<byte>)
    requires Named(s) && d in s.conns && s.conns[d].dec in s.ciphers
    ensures Named(Buffered(s, d, received)) && Buffered(s, d, received).ciphers.Keys == s.ciphers.Keys
  {
    hide Crypt, Advance;
  }

  lemma BufferedOwned(s: Server, d: nat, buf: seq<byte>, ciphers: map<nat, Cipher>)
    requires Owned(s) && d in s.conns && ciphers.Keys == s.ciphers.Keys
    ensures Owned(s.(conns := s.conns[d := s.conns[d].(buf := buf)], ciphers := ciphers))
  {
    var t := s.(conns := s.conns[d := s.conns[d].(buf := buf)], ciphers := ciphers);
    forall o, r ensures Agrees(t, o, r) {
      assert Agrees(s, o, r);
    }
  }

  lemma BufferedOk(s: Server, d: nat, received: seq<byte>)
    requires Invariant(s) && d in s.conns && s.conns[d].dec in s.ciphers
    ensures Invariant(Buffered(s, d, received))
  {
    hide Owned, Listed, Named, TimedBut, Crypt, Advance;
    var t := Buffered(s, d, received);
    BufferedNamed(s, d, received);
    BufferedOwned(s, d, t.conns[d].buf, t.ciphers);
    ListedSame(s, t);
    TimedSame(s, t, None);
  }

  lemma ConnReadsOk(s: Server, d: nat, received: seq<byte>, g: Grant)
    requires Invariant(s)
    ensures Invariant(ConnReads(s, d, received, g))
  {
    if d in s.conns {
      SockPositive(s, d);
      hide Judge, Crypt, Advance, Greet, Invariant, DropConn;
      if received == [] {
        DropConnOk(s, d);
      } else if |s.conns[d].buf| + |received| <= HEADERSIZE {
        BufferedOk(s, d, received);
        var t := Buffered(s, d, received);
        match Judge(t.conns[d].buf) {
          case More =>
          case Refuse => DropConnOk(t, d);
          case Accept(kind, id) => GreetOk(t, d, id, kind, g);
        }
      }
    }
  }

  lemma DeviceConnectsNamed(s: Server, key: seq<U8>, sock: int, p: nat)
    requires Named(s)
    ensures Named(DeviceConnects(s, key, sock, p))
    ensures s.next !in s.conns
  {
    hide Initial;
  }

  lemma DeviceConnectsOk(s: Server, key: seq<U8>, sock: int, p: nat)
    requires Invariant(s)
    ensures Invariant(DeviceConnects(s, key, sock, p))
  {
    hide Owned, Listed, Named, TimedBut, Initial;
    DeviceConnectsNamed(s, key, sock, p);
    DeviceConnectsOwned(s, key, sock, p);
    ListedSame(s, DeviceConnects(s, key, sock, p));
    TimedSame(s, DeviceConnects(s, key, sock, p), None);
  }

  lemma BrowserConnectsTimed(s: Server, key: seq<U8>, e: nat, psock: int, m: nat)
    requires Timed(s)
    ensures Timed(BrowserConnects(s, key, e, psock, m))
  {
    hide TQ.Ok, Waits, Initial;
    TimedSame(s, BrowserConnects(s, key, e, psock, m), None);
  }

  /** What BrowserConnectsOwned needs of an entry. */
  lemma ParkedDevice(s: Server, e: nat)
    requires Listed(s) && Named(s) && e in s.entries
    ensures EntryOk(s.entries[e]) && (s.entries[e].accepting ==> s.entries[e].device !in s.relays)
  {
    hide SortedIds, EntryOk;
  }

  lemma BrowserConnectsOk(s: Server, key: seq<U8>, e: nat, psock: int, m: nat)
    requires Invariant(s)
    ensures Invariant(BrowserConnects(s, key, e, psock, m))
  {
    hide Owned, Listed, Named, Timed, EntryOk, BrowserConnects;
    if e in s.entries {
      ParkedDevice(s, e);
    }
    BrowserConnectsOwned(s, key, e, psock, m);
    BrowserConnectsListed(s, key, e, psock, m);
    BrowserConnectsTimed(s, key, e, psock, m);
  }

  lemma RelaysNamed(s: Server, d: nat, n: nat)
    requires Named(s)
    ensures Named(RelayReads(s, d, n)) && Named(RelayWrites(s, d, n)) && Named(RelayEnds(s, d))
  {
    hide Advance;
  }

  lemma RelaysListed(s: Server, d: nat, n: nat)
    requires Listed(s) && Timed(s)
    ensures Listed(RelayReads(s, d, n)) && Listed(RelayWrites(s, d, n)) && Listed(RelayEnds(s, d))
    ensures Timed(RelayReads(s, d, n)) && Timed(RelayWrites(s, d, n)) && Timed(RelayEnds(s, d))
  {
    hide Listed, TimedBut, Advance;
    ListedSame(s, RelayReads(s, d, n));
    ListedSame(s, RelayWrites(s, d, n));
    ListedSame(s, RelayEnds(s, d));
    TimedSame(s, RelayReads(s, d, n), None);
    TimedSame(s, RelayWrites(s, d, n), None);
    TimedSame(s, RelayEnds(s, d), None);
  }

  lemma RelayReadsOwned(s: Server, d: nat, n: nat)
    requires Owned(s)
    ensures Owned(RelayReads(s, d, n))
  {
    hide Advance;
    var r := RelayReads(s, d, n);
    forall o, x ensures Agrees(r, o, x) {
      assert Agrees(s, o, x);
    }
  }

  lemma RelayWritesOwned(s: Server, d: nat, n: nat)
    requires Owned(s)
    ensures Owned(RelayWrites(s, d, n))
  {
    hide Advance;
    var r := RelayWrites(s, d, n);
    forall o, x ensures Agrees(r, o, x) {
      assert Agrees(s, o, x);
    }
  }

  /** Of a relay only counts and cipher contents change, or it goes altogether. */
  lemma RelayMovesOk(s: Server, d: nat, n: nat)
    requires Invariant(s)
    ensures Invariant(RelayReads(s, d, n)) && Invariant(RelayWrites(s, d, n)) && Invariant(RelayEnds(s, d))
  {
    hide Owned, Listed, Named, Timed, RelayReads, RelayWrites, RelayEnds;
    RelayEndsOwned(s, d);
    RelayReadsOwned(s, d, n);
    RelayWritesOwned(s, d, n);
    RelaysNamed(s, d, n);
    RelaysListed(s, d, n);
  }

  lemma EntriesListed(s: Server)
    requires Listed(s)
    ensures Linked(s) && forall e :: e in s.entries ==> EntryOk(s.entries[e])
  {
    hide Sorted, Unique, EntryOk, NoDup;
  }

  lemma DeleteOk(s: Server, id: seq<byte>, kind: Kind)
    requires Listed(s) && Owned(s) && Named(s)
    requires var k := Find(s.entries, s.list, id, kind);
             TimedBut(s, if k < |s.list| then Some(s.entries[s.list[k]].deltimer) else None)
    ensures Invariant(Delete(s, id, kind))
  {
    hide Owned, Listed, Named, TimedBut, Delete, EntryOk;
    assert Linked(s) && forall e :: e in s.entries ==> EntryOk(s.entries[e]) by {
      EntriesListed(s);
    }
    DeleteOwned(s, id, kind);
    DeleteListed(s, id, kind);
    DeleteTimed(s, id, kind);
  }

  lemma TimerFiresOk(s: Server, now: TQ.TimeVal)
    requires Invariant(s)
    ensures Invariant(TimerFires(s, now))
  {
    if s.q.locked && TQ.Overdue(s.q, s.clock) && s.q.armed[0].timer in s.q.intervals {
      var t, r := s.q.armed[0].timer, s.(q := TQ.Expire(s.q, now));
      QueueOk(s, r.q);
      TimerFiresTimed(s, now);
      if t in s.timeouts {
        var e := s.timeouts[t];
        ExpireTimed(s, now);
        var i := FindsItself(s, e);
        hide Owned, Listed, Named, TQ.Expire, Delete, Find, TimedBut;
        DeleteOk(r, r.entries[e].id, r.entries[e].kind);
      } else {
        hide Owned, Listed, Named, TQ.Expire;
      }
    }
  }

  /** No event breaks the invariant. */
  lemma StepOk(s: Server, key: seq<U8>, ev: Event)
    requires Invariant(s)
    ensures Invariant(Step(s, key, ev))
  {
    match ev {
      case EvDevice(sock, p) => DeviceConnectsOk(s, key, sock, p);
      case EvRead(d, received, g) => ConnReadsOk(s, d, received, g);
      case EvBrowser(e, psock, m) => BrowserConnectsOk(s, key, e, psock, m);
      case EvRelayReads(d, n) => RelayMovesOk(s, d, n);
      case EvRelayWrites(d, n) => RelayMovesOk(s, d, n);
      case EvRelayEnds(d) => RelayMovesOk(s, d, 0);
      case EvPassBegins(clock) =>
        ClockOk(s, s.q.(locked := true), TQ.Sane(clock));
        PassBeginsTimed(s, TQ.Sane(clock));
      case EvTimer(now) => TimerFiresOk(s, now);
      case EvPassEnds =>
        QueueOk(s, TQ.Finish(s.q));
        PassEndsTimed(s);
      case EvOtherTimer(op) =>
        if op.timer !in s.timeouts {
          QueueOk(s, TQ.Do(s.q, op));
          OtherTimerTimed(s, op);
        }
      case EvDelete(id, kind) =>
        var k := Find(s.entries, s.list, id, kind);
        NoneBut(s, if k < |s.list| then Some(s.entries[s.list[k]].deltimer) else None);
        DeleteOk(s, id, kind);
    }
    hide Owned, Listed, Named, TimedBut, DeviceConnects, ConnReads, BrowserConnects, RelayReads, RelayWrites, RelayEnds,
      TimerFires, Delete, TQ.Finish, TQ.Do;
  }

  /** The lines of all connections but d are unfinished. */
  ghost predicate LinesBut(s: Server, d: nat) {
    && (forall x :: x in s.conns && x != d ==> s.conns[x].buf == [] || Judge(s.conns[x].buf) == More)
    && (forall e :: e in s.entries && s.entries[e].accepting ==>
          s.entries[e].line != [] && Judge(s.entries[e].line) == Accept(s.entries[e].kind, s.entries[e].id))
  }

  lemma DropDeciphersBut(s: Server, key: seq<U8>, d: nat)
    requires Counted(s, key) && LinesBut(s, d) && d in s.conns
    ensures Deciphers(DropConn(s, d), key)
  {
    FewerCounted(s, key, DropConn(s, d));
    hide Judge, Counted;
  }

  lemma DropDeciphers(s: Server, key: seq<U8>, d: nat)
    requires Deciphers(s, key) && d in s.conns
    ensures Deciphers(DropConn(s, d), key)
  {
    hide Judge, Counted;
    DropDeciphersBut(s, key, d);
  }

  /** The connection's finished line goes into the entry that it asked for. */
  lemma ParkedLine(s: Server, key: seq<U8>, d: nat, e: nat, now: TQ.TimeVal)
    requires Counted(s, key) && LinesBut(s, d) && d in s.conns && e in s.entries
    requires s.conns[d].buf != [] && Judge(s.conns[d].buf) == Accept(s.entries[e].kind, s.entries[e].id)
    ensures Deciphers(Park(s, d, e, now), key)
  {
    hide Judge, Counted, ParkedResources;
    ParkDeciphers(s, key, d, e, now);
  }

  lemma TouchDeciphers(s: Server, key: seq<U8>, d: nat, e: nat, now: TQ.TimeVal)
    requires Counted(s, key) && LinesBut(s, d) && e in s.entries
    ensures Counted(Touch(s, e, now), key) && LinesBut(Touch(s, e, now), d)
  {
    hide Judge, TQ.Do;
    FewerCounted(s, key, Touch(s, e, now));
    hide Counted;
  }

  lemma NewClientDeciphers(s: Server, key: seq<U8>, d: nat, id: seq<byte>, kind: Kind, g: Grant)
    requires Linked(s) && Named(s) && Counted(s, key) && LinesBut(s, d) && Granted(s, g)
    ensures var t := NewClient(s, id, kind, g.listener.value, g.timer, g.now);
            && Counted(t, key) && LinesBut(t, d)
            && s.next in t.entries && t.entries[s.next].kind == kind && t.entries[s.next].id == id
            && t.conns == s.conns
  {
    hide Judge, TQ.Do, Slot, InsertAt, NoDup;
    FewerCounted(s, key, NewClient(s, id, kind, g.listener.value, g.timer, g.now));
    hide Counted;
  }

  lemma GreetDeciphers(s: Server, key: seq<U8>, d: nat, id: seq<byte>, kind: Kind, g: Grant)
    requires Linked(s) && Named(s) && Counted(s, key) && LinesBut(s, d) && d in s.conns
    requires s.conns[d].buf != [] && Judge(s.conns[d].buf) == Accept(kind, id)
    ensures Deciphers(Greet(s, d, id, kind, g), key)
  {
    hide Judge, Counted, LinesBut, LinesOk, Find, Named, NewClient, Park, TQ.Do, NoDup, DropConn;
    var k := Find(s.entries, s.list, id, kind);
    if k < |s.list| {
      TouchDeciphers(s, key, d, s.list[k], g.now);
      ParkedLine(Touch(s, s.list[k], g.now), key, d, s.list[k], g.now);
    } else if Granted(s, g) {
      NewClientDeciphers(s, key, d, id, kind, g);
      ParkedLine(NewClient(s, id, kind, g.listener.value, g.timer, g.now), key, d, s.next, g.now);
    } else {
      DropDeciphersBut(s, key, d);
    }
  }

  lemma ConnReadsDeciphers(s: Server, key: seq<U8>, d: nat, received: seq<byte>, g: Grant)
    requires Invariant(s) && Deciphers(s, key)
    ensures Deciphers(ConnReads(s, d, received, g), key)
  {
    if d in s.conns && s.conns[d].dec in s.ciphers {
      assert Owned(s);
      hide Judge, Crypt, Advance, Initial, Owned, Listed, Named, TimedBut, Greet, Counted;
      if received == [] {
        DropDeciphers(s, key, d);
      } else if |s.conns[d].buf| + |received| <= HEADERSIZE {
        var t := Buffered(s, d, received);
        BufferedDeciphers(s, key, d, received);
        BufferedOk(s, d, received);
        match Judge(t.conns[d].buf) {
          case More =>
          case Refuse => DropDeciphersBut(t, key, d);
          case Accept(kind, id) =>
            EntriesListed(t);
            GreetDeciphers(t, key, d, id, kind, g);
        }
      }
    }
  }

  lemma DeleteDeciphers(s: Server, key: seq<U8>, id: seq<byte>, kind: Kind)
    requires Linked(s) && Deciphers(s, key)
    ensures Deciphers(Delete(s, id, kind), key)
  {
    hide Judge, Find, ParkedResources, Destroyed, Without, NoDup;
    FewerCounted(s, key, Delete(s, id, kind));
    hide Counted;
  }

  lemma TimerFiresDeciphers(s: Server, key: seq<U8>, now: TQ.TimeVal)
    requires Linked(s) && Deciphers(s, key)
    ensures Deciphers(TimerFires(s, now), key)
  {
    hide Judge, Delete, NoDup, Counted;
    if s.q.locked && TQ.Overdue(s.q, s.clock) && s.q.armed[0].timer in s.q.intervals {
      var t, r := s.q.armed[0].timer, s.(q := TQ.Expire(s.q, now));
      hide TQ.Expire;
      FewerCounted(s, key, r);
      if t in s.timeouts && s.timeouts[t] in s.entries {
        var c := s.entries[s.timeouts[t]];
        DeleteDeciphers(r, key, c.id, c.kind);
      }
    }
  }

  lemma RelaysDecipher(s: Server, key: seq<U8>, d: nat, n: nat)
    requires Owned(s) && Deciphers(s, key)
    ensures Deciphers(RelayReads(s, d, n), key) && Deciphers(RelayWrites(s, d, n), key) && Deciphers(RelayEnds(s, d), key)
  {
    hide Judge, Owned, Advance;
    RelayMovesDeciphers(s, key, d, n);
    FewerCounted(s, key, RelayEnds(s, d));
    hide Counted;
  }

  lemma ClockDeciphers(s: Server, key: seq<U8>, q: TQ.Queue, clock: TQ.TimeVal)
    requires Deciphers(s, key)
    ensures Deciphers(s.(q := q, clock := clock), key)
  {
    hide Judge;
    FewerCounted(s, key, s.(q := q, clock := clock));
    hide Counted;
  }

  lemma QueueDeciphers(s: Server, key: seq<U8>, q: TQ.Queue)
    requires Deciphers(s, key)
    ensures Deciphers(s.(q := q), key)
  {
    hide Deciphers;
    ClockDeciphers(s, key, q, s.clock);
  }

  /** Nor does any make a cipher disagree with its count. */
  lemma StepDeciphers(s: Server, key: seq<U8>, ev: Event)
    requires Invariant(s) && Deciphers(s, key)
    ensures Deciphers(Step(s, key, ev), key)
  {
    match ev {
      case EvDevice(sock, p) => DeviceConnectsDeciphers(s, key, sock, p);
      case EvRead(d, received, g) => ConnReadsDeciphers(s, key, d, received, g);
      case EvBrowser(e, psock, m) => BrowserConnectsDeciphers(s, key, e, psock, m);
      case EvRelayReads(d, n) => RelaysDecipher(s, key, d, n);
      case EvRelayWrites(d, n) => RelaysDecipher(s, key, d, n);
      case EvRelayEnds(d) => RelaysDecipher(s, key, d, 0);
      case EvPassBegins(clock) => ClockDeciphers(s, key, s.q.(locked := true), TQ.Sane(clock));
      case EvTimer(now) => TimerFiresDeciphers(s, key, now);
      case EvPassEnds => QueueDeciphers(s, key, TQ.Finish(s.q));
      case EvOtherTimer(op) => QueueDeciphers(s, key, TQ.Do(s.q, op));
      case EvDelete(id, kind) => DeleteDeciphers(s, key, id, kind);
    }
    hide Owned, Sorted, Unique, Named, TimedBut, DeviceConnects, ConnReads, BrowserConnects, RelayReads, RelayWrites, RelayEnds,
      TimerFires, Delete, TQ.Finish, TQ.Do, Deciphers;
  }

  /** A run of the server; every state of it satisfies both invariants. */
  ghost function Run(s: Server, key: seq<U8>, events: seq<Event>): (r: Server)
    requires Invariant(s) && Deciphers(s, key)
    ensures Invariant(r) && Deciphers(r, key)
    decreases |events|
  {
    if events == [] then s
    else
      StepOk(s, key, events[0]);
      StepDeciphers(s, key, events[0]);
      Run(Step(s, key, events[0]), key, events[1..])
  }

  lemma EmptyOk(key: seq<U8>)
    ensures Invariant(EMPTY) && Deciphers(EMPTY, key)
  {
  }

  /** The state a run from the empty server reaches. */
  ghost function After(key: seq<U8>, events: seq<Event>): (s: Server)
    ensures Invariant(s) && Deciphers(s, key)
  {
    EmptyOk(key);
    Run(EMPTY, key, events)
  }

  // ----- main results, for every run from the empty server

  /**
   * Every open device socket, every other open descriptor and every allocated cipher state is
   * referred to by one component and by no other; and nothing that was closed or freed is referred to.
   */
  lemma ExactlyOneOwner(key: seq<U8>, events: seq<Event>, r: Resource)
    ensures var s := After(key, events);
            && (r in s.table ==> r in Refers(s, s.table[r]) && forall o :: r in Refers(s, o) ==> o == s.table[r])
            && (r !in s.table ==> forall o :: r !in Refers(s, o))
  {
    var s := After(key, events);
    hide After, Refers, Deciphers, Listed, Named, Timed;
    forall o ensures r in Refers(s, o) <==> r in s.table && s.table[r] == o {
      assert Agrees(s, o, r);
    }
  }

  /**
   * The accept callback of an entry is registered exactly while a device is parked in it, and that
   * device is neither pending elsewhere, nor parked elsewhere, nor ever relayed before.
   */
  lemma ParkedExactlyWhileAccepting(key: seq<U8>, events: seq<Event>, e: nat)
    ensures var s := After(key, events);
            e in s.entries ==>
              && (s.entries[e].accepting <==> s.entries[e].rSock > 0)
              && (s.entries[e].accepting <==> s.entries[e].dec.Some?)
              && (s.entries[e].accepting ==>
                    && s.entries[e].device !in s.relayed && s.entries[e].device !in s.conns
                    && forall f :: f in s.entries && f != e && s.entries[f].accepting ==>
                         s.entries[f].device != s.entries[e].device)
  {
    hide After, Owned, SortedIds, NoDup, Timed, Deciphers;
  }

  /** The sockets and cells of a relay. */
  function Ends(l: Link): (int, int, nat, nat) {
    (l.tsock, l.psock, l.dec, l.enc)
  }

  /** No device is relayed again: whoever has a new relay had none before. */
  predicate HandedOnce(s: Server, t: Server, d: nat) {
    && s.relayed <= t.relayed
    && (d in t.relays && (d !in s.relays || Ends(t.relays[d]) != Ends(s.relays[d])) ==> d !in s.relayed && d in t.relayed)
  }

  lemma HandOverRelays(s: Server, key: seq<U8>, e: nat, psock: int, m: nat, d: nat)
    requires Listed(s) && Named(s)
    ensures var t := BrowserConnects(s, key, e, psock, m);
            HandedOnce(s, t, d)
  {
    hide Listed, Initial;
  }

  lemma RelayMovesHanded(s: Server, key: seq<U8>, ev: Event, d: nat)
    requires Linked(s) && (ev.EvRelayReads? || ev.EvRelayWrites? || ev.EvRelayEnds? || ev.EvDevice?)
    ensures HandedOnce(s, Step(s, key, ev), d)
  {
    hide Linked, Advance, Initial;
  }

  lemma GreetKeepsRelays(s: Server, d: nat, id: seq<byte>, kind: Kind, g: Grant)
    requires d in s.conns && forall c :: c in s.list ==> c in s.entries
    ensures Greet(s, d, id, kind, g).relays == s.relays && Greet(s, d, id, kind, g).relayed == s.relayed
  {
    hide Find, Slot, InsertAt, TQ.Do, ParkedResources;
  }

  lemma ReadsKeepRelays(s: Server, d: nat, received: seq<byte>, g: Grant)
    requires Linked(s)
    ensures ConnReads(s, d, received, g).relays == s.relays && ConnReads(s, d, received, g).relayed == s.relayed
  {
    hide Judge, Crypt, Advance, Greet, NoDup;
    if d in s.conns && s.conns[d].dec in s.ciphers {
      var t := Buffered(s, d, received);
      if t.conns[d].buf != [] && Judge(t.conns[d].buf).Accept? {
        GreetKeepsRelays(t, d, Judge(t.conns[d].buf).id, Judge(t.conns[d].buf).kind, g);
      }
    }
  }

  lemma DeletesKeepRelays(s: Server, id: seq<byte>, kind: Kind, now: TQ.TimeVal)
    requires Linked(s)
    ensures Delete(s, id, kind).relays == s.relays && Delete(s, id, kind).relayed == s.relayed
    ensures TimerFires(s, now).relays == s.relays && TimerFires(s, now).relayed == s.relayed
  {
    hide Find, TQ.Do, TQ.Expire, NoDup, ParkedResources, Without;
  }

  lemma OthersKeepRelays(s: Server, key: seq<U8>, ev: Event)
    requires Linked(s)
    requires ev.EvRead? || ev.EvTimer? || ev.EvDelete? || ev.EvPassBegins? || ev.EvPassEnds? || ev.EvOtherTimer?
    ensures Step(s, key, ev).relays == s.relays && Step(s, key, ev).relayed == s.relayed
  {
    match ev {
      case EvRead(x, received, g) => ReadsKeepRelays(s, x, received, g);
      case EvTimer(now) => DeletesKeepRelays(s, [], Radmin, now);
      case EvDelete(id, kind) => DeletesKeepRelays(s, id, kind, TQ.TimeVal(0, 0));
      case _ =>
    }
    hide Linked, ConnReads, TimerFires, Delete, TQ.Do, TQ.Finish;
  }

  lemma StepRelays(s: Server, key: seq<U8>, ev: Event, d: nat)
    requires Invariant(s)
    ensures HandedOnce(s, Step(s, key, ev), d)
  {
    assert Linked(s);
    if ev.EvBrowser? {
      HandOverRelays(s, key, ev.e, ev.psock, ev.m, d);
      hide Invariant, Linked, HandedOnce, BrowserConnects;
    } else if ev.EvRelayReads? || ev.EvRelayWrites? || ev.EvRelayEnds? || ev.EvDevice? {
      hide Invariant, Linked, Step;
      RelayMovesHanded(s, key, ev, d);
    } else {
      hide Invariant, Linked, Step;
      OthersKeepRelays(s, key, ev);
    }
  }

  /** A device is handed to a relay at most once: whoever gets a relay, or another one, was never relayed before. */
  lemma RelayedOnce(key: seq<U8>, events: seq<Event>, ev: Event, d: nat)
    ensures var s := After(key, events);
            var t := Step(s, key, ev);
            && s.relayed <= t.relayed
            && (d in t.relays && (d !in s.relays || Ends(t.relays[d]) != Ends(s.relays[d])) ==> d !in s.relayed && d in t.relayed)
  {
    StepRelays(After(key, events), key, ev, d);
  }

  lemma TimerLives(s: Server, e: nat)
    requires Timed(s) && e in s.entries
    ensures TQ.Live(s.q, s.entries[e].deltimer)
  {
    var c := s.entries[e];
    assert Waits(s.q, c.deltimer, c.heard);
    HoldsLive(s.q, TQ.Entry(c.deltimer, TQ.Due(c.heard, DELETE_AFTER), 1));
  }

  /**
   * The list is sorted by id and unique by id and kind; every entry's deletion timer is live, timers
   * of different entries differ, and no live deletion timer belongs to an entry that is gone.
   */
  lemma ListInvariant(key: seq<U8>, events: seq<Event>)
    ensures var s := After(key, events);
            && Linked(s) && SortedIds(Ids(s.entries, s.list))
            && (forall e, f :: e in s.entries && f in s.entries && e != f ==>
                 s.entries[e].id != s.entries[f].id || s.entries[e].kind != s.entries[f].kind)
            && (forall e :: e in s.entries ==> TQ.Live(s.q, s.entries[e].deltimer))
            && (forall e, f :: e in s.entries && f in s.entries && e != f ==> s.entries[e].deltimer != s.entries[f].deltimer)
            && (forall t :: t in s.timeouts ==> s.timeouts[t] in s.entries && s.entries[s.timeouts[t]].deltimer == t)
  {
    var s := After(key, events);
    forall e | e in s.entries ensures TQ.Live(s.q, s.entries[e].deltimer) {
      TimerLives(s, e);
    }
    hide After, Owned, SortedIds, NoDup, Deciphers, Named, TQ.Ok, TQ.Live, Waits;
  }

  /** Deleting an entry by its own id and kind. */
  lemma DeletesOwnEntry(s: Server, e: nat)
    requires Listed(s) && e in s.entries
    ensures var r := TimeoutDel(s, e);
            && r.conns == s.conns && r.relays == s.relays
            && r.entries == s.entries - {e} && e !in r.list && |r.list| == |s.list| - 1
            && r.table == s.table - (Refers(s, Listener(e)) + Refers(s, Parked(e)))
            && r.timeouts == s.timeouts - {s.entries[e].deltimer} && r.q == Destroyed(s.q, s.entries[e].deltimer)
  {
    var i := FindsItself(s, e);
    hide Sorted, Unique, EntryOk, Find, Destroyed, ParkedResources;
    WithoutFacts(s.list, i);
  }

  lemma DestroyedGone(q: TQ.Queue, t: nat)
    requires t in q.intervals
    ensures t !in Destroyed(q, t).intervals
  {
    hide TQ.Do;
    DoIntervals(q, TQ.OpStop(t));
    DoIntervals(TQ.Do(q, TQ.OpStop(t)), TQ.OpDestroy(t));
  }

  lemma SameRefers(s: Server, q: TQ.Queue, e: nat)
    ensures Refers(s.(q := q), Listener(e)) == Refers(s, Listener(e))
    ensures Refers(s.(q := q), Parked(e)) == Refers(s, Parked(e))
  {
  }

  lemma OwnEntryGoes(s: Server, now: TQ.TimeVal, t: nat)
    requires Invariant(s) && s.q.armed != [] && t == s.q.armed[0].timer && t in s.timeouts && t in s.q.intervals
    ensures var e, r := s.timeouts[t], TimeoutDel(s.(q := TQ.Expire(s.q, now)), s.timeouts[t]);
            && r.conns == s.conns && r.relays == s.relays
            && e in s.entries && s.entries[e].deltimer == t
            && r.entries == s.entries - {e} && e !in r.list && |r.list| == |s.list| - 1
            && r.table == s.table - (Refers(s, Listener(e)) + Refers(s, Parked(e)))
            && r.timeouts == s.timeouts - {t} && t !in r.q.intervals
  {
    ExpireIntervals(s.q, now);
    var q := TQ.Expire(s.q, now);
    QueueOk(s, q);
    TimersEntry(s, t);
    SameRefers(s, q, s.timeouts[t]);
    DestroyedGone(q, t);
    hide Invariant, Listed, Owned, Named, TQ.Expire, TimeoutDel, Destroyed, Refers;
    DeletesOwnEntry(s.(q := q), s.timeouts[t]);
  }

  lemma HeadExists(q: TQ.Queue)
    requires TQ.Ok(q) && q.armed != []
    ensures q.armed[0].timer in q.intervals
  {
    assert q.armed[0] in q.armed + q.pending;
  }

  /**
   * When a deletion timer expires, exactly the entry it was armed for goes, with all it held and
   * with the timer; a timer that is not a deletion timer removes nothing.
   */
  lemma TimerRemovesOwnEntry(s: Server, now: TQ.TimeVal)
    requires Invariant(s) && s.q.locked && TQ.Overdue(s.q, s.clock)
    ensures var t, r := s.q.armed[0].timer, TimerFires(s, now);
            && r.conns == s.conns && r.relays == s.relays
            && (if t in s.timeouts then
                  var e := s.timeouts[t];
                  && e in s.entries && s.entries[e].deltimer == t
                  && r.entries == s.entries - {e} && e !in r.list && |r.list| == |s.list| - 1
                  && r.table == s.table - (Refers(s, Listener(e)) + Refers(s, Parked(e)))
                  && r.timeouts == s.timeouts - {t} && t !in r.q.intervals
                else r.entries == s.entries && r.list == s.list && r.table == s.table && r.timeouts == s.timeouts)
  {
    var t := s.q.armed[0].timer;
    HeadExists(s.q);
    ExpireIntervals(s.q, now);
    if t in s.timeouts {
      OwnEntryGoes(s, now, t);
    }
    hide Owned, Listed, Named, TQ.Expire, TimeoutDel, TQ.Ok, Waits, Refers, Linked;
  }

  /**
   * In every reachable state the cipher towards the browser is the initial one advanced by all bytes
   * received from the device, the line that named it included, and the cipher towards the device the
   * initial one advanced by the bytes enciphered for it.
   */
  lemma RelayCiphers(key: seq<U8>, events: seq<Event>, d: nat)
    ensures var s := After(key, events);
            d in s.relays ==>
              var l := s.relays[d];
              && l.dec in s.ciphers && s.ciphers[l.dec] == Advance(Initial(key), l.got)
              && l.enc in s.ciphers && s.ciphers[l.enc] == Advance(Initial(key), l.put)
  {
    var s := After(key, events);
    if d in s.relays {
      var l := s.relays[d];
      assert HasCount(s, Tunnel(d), l.dec, l.got) && HasCount(s, Browser(d), l.enc, l.put);
    }
    hide After, Invariant, Initial, Advance, HasCount;
  }

  /**
   * The hand-over: the relay gets the cell whose cipher has deciphered the line that asked for this
   * entry, so far and no further, and a fresh cipher beside it.
   */
  lemma CipherHandedOver(key: seq<U8>, events: seq<Event>, e: nat, psock: int, m: nat)
    ensures var s := After(key, events);
            e in s.entries && s.entries[e].accepting && psock > 0 && Fd(psock) !in s.table && Mem(m) !in s.table ==>
              var t, c := BrowserConnects(s, key, e, psock, m), s.entries[e];
              && c.line != [] && Judge(c.line) == Accept(c.kind, c.id)
              && c.dec.Some? && c.device in t.relays && Ends(t.relays[c.device]) == (c.rSock, psock, c.dec.value, m)
              && c.dec.value in t.ciphers && t.ciphers[c.dec.value] == Advance(Initial(key), |c.line|)
              && m in t.ciphers && t.ciphers[m] == Initial(key)
  {
    var s := After(key, events);
    if e in s.entries && s.entries[e].accepting && psock > 0 && Fd(psock) !in s.table && Mem(m) !in s.table {
      var c := s.entries[e];
      assert EntryOk(c);
      assert HasCount(s, Parked(e), c.dec.value, |c.line|);
      HeldBy(s, Parked(e), c.dec.value, |c.line|);
      hide After, Owned, Listed, Named, Timed, Initial, Advance, Judge;
    }
  }

  // ----- main results, on time

  /** The queue has one entry for the timer; it is due at this time, in microseconds, and fires once. */
  ghost predicate DueOnce(q: TQ.Queue, t: nat, micros: int) {
    var all := q.armed + q.pending;
    exists i :: 0 <= i < |all| && all[i].timer == t && all[i].repeat == 1 && TQ.Micros(all[i].due) == micros
                && forall j :: 0 <= j < |all| && all[j].timer == t ==> j == i
  }

  lemma WaitsDue(q: TQ.Queue, t: nat, clock: TQ.TimeVal)
    requires TQ.Ok(q) && Waits(q, t, clock)
    ensures DueOnce(q, t, TQ.Micros(TQ.Sane(clock)) + 1_800_000_000)
  {
    hide TQ.Sorted, TQ.Due, TQ.AllNormal;
    var all, x := q.armed + q.pending, TQ.Entry(t, TQ.Due(clock, DELETE_AFTER), 1);
    assert x in all;
    var i :| 0 <= i < |all| && all[i] == x;
  }

  /**
   * In every reachable state each entry has its own deletion timer, with one entry in the queue, due
   * half an hour after the clock at which a device's line was last understood for it.
   */
  lemma DeletionDue(key: seq<U8>, events: seq<Event>, e: nat)
    ensures var s := After(key, events);
            e in s.entries ==> DueOnce(s.q, s.entries[e].deltimer, TQ.Micros(TQ.Sane(s.entries[e].heard)) + 1_800_000_000)
  {
    var s := After(key, events);
    if e in s.entries {
      WaitsDue(s.q, s.entries[e].deltimer, s.entries[e].heard);
    }
    hide After, Owned, Listed, Deciphers, Named, TQ.Ok, Waits, DueOnce;
  }

  /** Entry e is as it was, or it parks the device that was just read from, or its device went to a browser. */
  ghost predicate EntryKept(s: Server, t: Server, ev: Event, e: nat)
    requires e in s.entries
  {
    var c := s.entries[e];
    && e in t.entries
    && (|| t.entries[e] == c
        || (ev.EvBrowser? && ev.e == e && c.accepting
            && t.entries[e] == c.(rSock := -1, dec := None, accepting := false))
        || (ev.EvRead? && ev.d in s.conns
            && t.entries[e] == c.(rSock := s.conns[ev.d].sock, dec := Some(s.conns[ev.d].dec), device := ev.d, accepting := true,
                                  line := t.entries[e].line, heard := ev.grant.now)))
  }

  /** Entry e is deleted by name, or its deletion timer is at the head and due. */
  ghost predicate EntryGoes(s: Server, ev: Event, e: nat)
    requires e in s.entries
  {
    || ev == EvDelete(s.entries[e].id, s.entries[e].kind)
    || (ev.EvTimer? && s.q.locked && TQ.Overdue(s.q, s.clock) && s.q.armed[0].timer == s.entries[e].deltimer)
  }

  ghost predicate EntryFate(s: Server, t: Server, ev: Event, e: nat)
    requires e in s.entries
  {
    EntryKept(s, t, ev, e) || (e !in t.entries && EntryGoes(s, ev, e))
  }

  lemma GreetFate(s: Server, d: nat, id: seq<byte>, kind: Kind, g: Grant, received: seq<byte>, e: nat)
    requires Linked(s) && d in s.conns && s.next !in s.entries && e in s.entries
    ensures EntryKept(s, Greet(s, d, id, kind, g), EvRead(d, received, g), e)
  {
    hide Find, Slot, InsertAt, TQ.Do, NoDup, ParkedResources;
  }

  lemma ReadsFate(s: Server, d: nat, received: seq<byte>, g: Grant, e: nat)
    requires Linked(s) && s.next !in s.entries && e in s.entries
    ensures EntryFate(s, ConnReads(s, d, received, g), EvRead(d, received, g), e)
  {
    hide Judge, Crypt, Advance, Greet, NoDup;
    if d in s.conns && s.conns[d].dec in s.ciphers {
      var t := Buffered(s, d, received);
      if t.conns[d].buf != [] && Judge(t.conns[d].buf).Accept? {
        GreetFate(t, d, Judge(t.conns[d].buf).id, Judge(t.conns[d].buf).kind, g, received, e);
      }
    }
  }

  lemma DeleteFate(s: Server, id: seq<byte>, kind: Kind, e: nat)
    requires Linked(s) && e in s.entries
    ensures EntryFate(s, Delete(s, id, kind), EvDelete(id, kind), e)
  {
    hide Find, Without, NoDup, ParkedResources, Destroyed;
  }

  lemma TimerFate(s: Server, now: TQ.TimeVal, e: nat)
    requires Invariant(s) && e in s.entries
    ensures EntryFate(s, TimerFires(s, now), EvTimer(now), e)
  {
    if s.q.locked && TQ.Overdue(s.q, s.clock) {
      TimerRemovesOwnEntry(s, now);
    }
    hide Invariant, TQ.Overdue, TQ.Expire, Refers;
  }

  lemma BrowserFate(s: Server, key: seq<U8>, b: nat, psock: int, m: nat, e: nat)
    requires e in s.entries
    ensures EntryFate(s, BrowserConnects(s, key, b, psock, m), EvBrowser(b, psock, m), e)
  {
    hide Initial;
  }

  lemma OtherFate(s: Server, key: seq<U8>, ev: Event, e: nat)
    requires Linked(s) && e in s.entries
    requires ev.EvDevice? || ev.EvRelayReads? || ev.EvRelayWrites? || ev.EvRelayEnds? || ev.EvPassBegins? || ev.EvPassEnds?
             || ev.EvOtherTimer?
    ensures EntryFate(s, Step(s, key, ev), ev, e)
  {
    hide Initial, Advance, TQ.Do, TQ.Finish, Linked;
  }

  lemma StepFate(s: Server, key: seq<U8>, ev: Event, e: nat)
    requires Invariant(s) && e in s.entries
    ensures EntryFate(s, Step(s, key, ev), ev, e)
  {
    assert Linked(s) && s.next !in s.entries;
    match ev {
      case EvRead(d, received, g) => ReadsFate(s, d, received, g, e);
      case EvBrowser(b, psock, m) => BrowserFate(s, key, b, psock, m, e);
      case EvTimer(now) => TimerFate(s, now, e);
      case EvDelete(id, kind) => DeleteFate(s, id, kind, e);
      case _ => OtherFate(s, key, ev, e);
    }
    hide Invariant, Linked, EntryFate, DeviceConnects, ConnReads, BrowserConnects, RelayReads, RelayWrites, RelayEnds,
      TimerFires, Delete, TQ.Finish, TQ.Do;
  }

  /** A deletion timer that is due at the head of the queue is due by the clock, but for a millisecond. */
  lemma HeadDue(s: Server, e: nat)
    requires Timed(s) && e in s.entries && TQ.Overdue(s.q, s.clock) && s.q.armed[0].timer == s.entries[e].deltimer
    ensures TQ.Micros(s.clock) + 1000 > TQ.Micros(TQ.Sane(s.entries[e].heard)) + 1_800_000_000
  {
    var c := s.entries[e];
    assert s.timeouts[c.deltimer] == e;
    assert Waits(s.q, c.deltimer, c.heard);
    WaitsDue(s.q, c.deltimer, c.heard);
    var all := s.q.armed + s.q.pending;
    assert all[0] == s.q.armed[0] && s.q.armed[0] in s.q.armed;
    TQ.TvCmpBounds(s.clock, s.q.armed[0].due);
    hide TQ.TvCmp, TQ.Sane, TQ.Sorted, TQ.Distinct, Waits, TQ.Micros;
  }

  /**
   * In every reachable state an event removes an entry only if it asks for the deletion of its id and
   * kind, or if the clock of the pass is within a millisecond of half an hour after the entry's last line.
   */
  lemma EntryStays(key: seq<U8>, events: seq<Event>, ev: Event, e: nat)
    ensures var s := After(key, events);
            e in s.entries && ev != EvDelete(s.entries[e].id, s.entries[e].kind)
            && TQ.Micros(s.clock) + 1000 <= TQ.Micros(TQ.Sane(s.entries[e].heard)) + 1_800_000_000 ==>
              e in Step(s, key, ev).entries
  {
    var s := After(key, events);
    if e in s.entries {
      StepFate(s, key, ev, e);
      if EntryGoes(s, ev, e) && ev.EvTimer? {
        HeadDue(s, e);
      }
    }
    hide After, Invariant, Deciphers, Step, TQ.Overdue, TQ.Sane;
  }

  /** What an event may change of an entry that stays: its id, kind, listening socket and timer never. */
  lemma EntryChanges(key: seq<U8>, events: seq<Event>, ev: Event, e: nat)
    ensures var s, t := After(key, events), Step(After(key, events), key, ev);
            e in s.entries && e in t.entries && t.entries[e] != s.entries[e] ==>
              var c, r := s.entries[e], t.entries[e];
              && r.id == c.id && r.kind == c.kind && r.lSock == c.lSock && r.deltimer == c.deltimer
              && (if ev.EvBrowser? then ev.e == e && c.accepting && !r.accepting && r.heard == c.heard
                  else ev.EvRead? && ev.d in s.conns && r.accepting && r.device == ev.d && r.heard == ev.grant.now)
  {
    var s := After(key, events);
    if e in s.entries {
      StepFate(s, key, ev, e);
    }
    hide After, Invariant, Deciphers, Step, EntryGoes;
  }

  lemma ReadsClock(s: Server, d: nat, received: seq<byte>, g: Grant)
    requires Linked(s)
    ensures ConnReads(s, d, received, g).clock == s.clock
  {
    hide Find, Slot, InsertAt, TQ.Do, NoDup, ParkedResources, Judge, Crypt, Advance;
  }

  lemma DeletesClock(s: Server, id: seq<byte>, kind: Kind, now: TQ.TimeVal)
    requires Linked(s)
    ensures Delete(s, id, kind).clock == s.clock && TimerFires(s, now).clock == s.clock
  {
    hide Find, TQ.Do, TQ.Expire, TQ.Overdue, NoDup, ParkedResources, Without, Destroyed;
  }

  lemma ConnectsClock(s: Server, key: seq<U8>, a: int, b: nat, e: nat)
    ensures DeviceConnects(s, key, a, b).clock == s.clock && BrowserConnects(s, key, e, a, b).clock == s.clock
  {
    hide Initial;
  }

  /** The clock that counts is the one read at the beginning of the last pass; timers fire until that pass ends. */
  lemma ClockOfPass(s: Server, key: seq<U8>, ev: Event)
    requires Linked(s)
    ensures Step(s, key, ev).clock == if ev.EvPassBegins? && !s.q.locked then TQ.Sane(ev.clock) else s.clock
    ensures ev.EvPassBegins? ==> Step(s, key, ev).q.locked
    ensures ev.EvPassEnds? ==> !Step(s, key, ev).q.locked
  {
    match ev {
      case EvDevice(sock, p) => ConnectsClock(s, key, sock, p, 0);
      case EvRead(d, received, g) => ReadsClock(s, d, received, g);
      case EvBrowser(e, psock, m) => ConnectsClock(s, key, psock, m, e);
      case EvTimer(now) => DeletesClock(s, [], Radmin, now);
      case EvDelete(id, kind) => DeletesClock(s, id, kind, TQ.TimeVal(0, 0));
      case _ =>
    }
    hide Linked, DeviceConnects, ConnReads, BrowserConnects, TimerFires, Delete, TQ.Merge, TQ.Do, Advance;
  }

  // ----- main results, on what becomes of a device

  /** Device d is held no more, and its descriptor and cell are closed and freed. */
  ghost predicate Dropped(t: Server, d: nat, sock: int, dec: nat) {
    && d !in t.conns && Fd(sock) !in t.table && Mem(dec) !in t.table
    && forall e :: e in t.entries && t.entries[e].accepting ==> t.entries[e].device != d
  }

  /** Entry e parks device d with this descriptor and cell, under the id and kind of this line. */
  ghost predicate ParksFrom(t: Server, e: nat, d: nat, sock: int, dec: nat, line: seq<byte>, id: seq<byte>, kind: Kind,
                             now: TQ.TimeVal) {
    && e in t.entries
    && var c := t.entries[e];
       && c.id == id && c.kind == kind && c.accepting && c.device == d && c.line == line && c.heard == now
       && c.rSock == sock && c.dec == Some(dec)
       && Fd(sock) in t.table && Mem(dec) in t.table
  }

  /** An entry of this id and kind is there, or the system gives what a new one needs. */
  ghost predicate HasPlace(s: Server, id: seq<byte>, kind: Kind, g: Grant) {
    || (exists e :: e in s.entries && s.entries[e].id == id && s.entries[e].kind == kind)
    || (g.listener.Some? && g.listener.value > 0 && Fd(g.listener.value) !in s.table && g.timer !in s.q.intervals)
  }

  /** What a line deserves whose verdict is v. */
  ghost predicate Heeded(s: Server, t: Server, d: nat, line: seq<byte>, v: Verdict, g: Grant)
    requires d in s.conns
  {
    var conn := s.conns[d];
    match v
    case More => d in t.conns && t.conns[d] == conn.(buf := line)
    case Refuse => Dropped(t, d, conn.sock, conn.dec)
    case Accept(kind, id) =>
      && d !in t.conns
      && if HasPlace(s, id, kind, g) then exists e :: ParksFrom(t, e, d, conn.sock, conn.dec, line, id, kind, g.now)
         else Dropped(t, d, conn.sock, conn.dec)
  }

  lemma DropConnDrops(s: Server, d: nat)
    requires Named(s) && d in s.conns
    ensures Dropped(DropConn(s, d), d, s.conns[d].sock, s.conns[d].dec)
  {
  }

  lemma FindsPlace(s: Server, id: seq<byte>, kind: Kind)
    requires Linked(s)
    ensures Find(s.entries, s.list, id, kind) < |s.list| <==>
            exists e :: e in s.entries && s.entries[e].id == id && s.entries[e].kind == kind
  {
    hide Find;
    if Find(s.entries, s.list, id, kind) == |s.list| {
      FreshPair(s, id, kind);
    } else {
      assert s.list[Find(s.entries, s.list, id, kind)] in s.entries;
    }
  }

  lemma ParkParks(s: Server, d: nat, e: nat, now: TQ.TimeVal)
    requires d in s.conns && e in s.entries
    ensures var c := s.entries[e];
            && d !in Park(s, d, e, now).conns
            && ParksFrom(Park(s, d, e, now), e, d, s.conns[d].sock, s.conns[d].dec, s.conns[d].buf, c.id, c.kind, now)
  {
    hide ParkedResources;
  }

  lemma NewEntry(s: Server, id: seq<byte>, kind: Kind, l: int, t: nat, now: TQ.TimeVal)
    requires Linked(s) && Named(s)
    ensures var r := NewClient(s, id, kind, l, t, now);
            r.conns == s.conns && s.next < r.next && s.next in r.entries && r.entries[s.next].id == id && r.entries[s.next].kind == kind
  {
  }

  lemma GreetMeans(s: Server, d: nat, id: seq<byte>, kind: Kind, g: Grant)
    requires Linked(s) && Named(s) && d in s.conns
    ensures Heeded(s, Greet(s, d, id, kind, g), d, s.conns[d].buf, Accept(kind, id), g)
  {
    hide Find, Park, NewClient, DropConn, TQ.Do, NoDup, Dropped, ParksFrom;
    FindsPlace(s, id, kind);
    var k := Find(s.entries, s.list, id, kind);
    if k < |s.list| {
      ParkParks(Touch(s, s.list[k], g.now), d, s.list[k], g.now);
    } else if Granted(s, g) {
      NewEntry(s, id, kind, g.listener.value, g.timer, g.now);
      ParkParks(NewClient(s, id, kind, g.listener.value, g.timer, g.now), d, s.next, g.now);
    } else {
      DropConnDrops(s, d);
    }
    hide Named, Linked;
  }

  lemma BufferedPlace(s: Server, d: nat, received: seq<byte>, id: seq<byte>, kind: Kind, g: Grant)
    requires d in s.conns && s.conns[d].dec in s.ciphers
    ensures HasPlace(Buffered(s, d, received), id, kind, g) == HasPlace(s, id, kind, g)
  {
    hide Crypt, Advance;
  }

  lemma BufferedHeeds(s: Server, t: Server, d: nat, received: seq<byte>, v: Verdict, g: Grant)
    requires d in s.conns && s.conns[d].dec in s.ciphers
    requires Heeded(Buffered(s, d, received), t, d, Buffered(s, d, received).conns[d].buf, v, g)
    ensures Heeded(s, t, d, s.conns[d].buf + Crypt(s.ciphers[s.conns[d].dec], received), v, g)
  {
    hide Crypt, Advance, HasPlace, Dropped, ParksFrom;
    if v.Accept? {
      BufferedPlace(s, d, received, v.id, v.kind, g);
    }
  }

  lemma Refused(s: Server, d: nat, line: seq<byte>, g: Grant)
    requires Named(s) && d in s.conns
    ensures Heeded(s, DropConn(s, d), d, line, Refuse, g)
  {
    hide Dropped, DropConn;
    DropConnDrops(s, d);
  }

  lemma Unfinished(s: Server, d: nat, g: Grant)
    requires d in s.conns
    ensures Heeded(s, s, d, s.conns[d].buf, More, g)
  {
  }

  lemma ReadsHeed(s: Server, d: nat, received: seq<byte>, g: Grant)
    requires Linked(s) && Named(s) && d in s.conns && s.conns[d].dec in s.ciphers && |s.conns[d].buf| + |received| <= HEADERSIZE
    ensures var line := s.conns[d].buf + Crypt(s.ciphers[s.conns[d].dec], received);
            Heeded(s, ConnReads(s, d, received, g), d, line, if received == [] then Refuse else Judge(line), g)
  {
    hide Judge, Crypt, Advance, Greet, NoDup, Heeded;
    if received == [] {
      Refused(s, d, s.conns[d].buf + Crypt(s.ciphers[s.conns[d].dec], received), g);
    } else {
      var t := Buffered(s, d, received);
      BufferedNamed(s, d, received);
      var line := t.conns[d].buf;
      var v := Judge(line);
      match v {
        case More => Unfinished(t, d, g);
        case Refuse => Refused(t, d, line, g);
        case Accept(kind, id) => GreetMeans(t, d, id, kind, g);
      }
      BufferedHeeds(s, ConnReads(s, d, received, g), d, received, v, g);
    }
  }

  /**
   * Reading from a device's connection, in every reachable state: an end of stream or a bad line
   * closes it for good, a line without its end is kept, and a whole line parks the device under the
   * kind and id it names, from this clock on, if there is or can be an entry for it.
   */
  lemma LineHeeded(key: seq<U8>, events: seq<Event>, d: nat, received: seq<byte>, g: Grant)
    ensures var s := After(key, events);
            d in s.conns && |s.conns[d].buf| + |received| <= HEADERSIZE ==>
              && s.conns[d].dec in s.ciphers
              && var line := s.conns[d].buf + Crypt(s.ciphers[s.conns[d].dec], received);
                 Heeded(s, Step(s, key, EvRead(d, received, g)), d, line, if received == [] then Refuse else Judge(line), g)
  {
    var s := After(key, events);
    assert Invariant(s);
    if d in s.conns {
      SockPositive(s, d);
      hide After, Deciphers, Owned, Timed, Heeded, Crypt, Judge, ConnReads, SortedIds, EntryOk, NoDup;
      if |s.conns[d].buf| + |received| <= HEADERSIZE {
        ReadsHeed(s, d, received, g);
      }
    }
  }

  // ----- events about something else

  /** What is left of device d: its connection and its relay, whose counts may move. */
  ghost predicate StillThere(s: Server, t: Server, d: nat) {
    && (d in s.conns ==> d in t.conns && t.conns[d] == s.conns[d])
    && (d in s.relays ==> d in t.relays && Ends(t.relays[d]) == Ends(s.relays[d]))
  }

  lemma GreetLeaves(s: Server, x: nat, id: seq<byte>, kind: Kind, g: Grant, d: nat)
    requires Linked(s) && s.next !in s.entries && x in s.conns && x != d
    ensures var t := Greet(s, x, id, kind, g); d in s.conns ==> d in t.conns && t.conns[d] == s.conns[d]
  {
    hide Find, Slot, InsertAt, TQ.Do, NoDup, ParkedResources;
  }

  lemma ReadsLeave(s: Server, x: nat, received: seq<byte>, g: Grant, d: nat)
    requires Linked(s) && s.next !in s.entries && x != d
    ensures StillThere(s, ConnReads(s, x, received, g), d)
  {
    hide Judge, Crypt, Advance, Greet, NoDup;
    if x in s.conns && s.conns[x].dec in s.ciphers {
      var t := Buffered(s, x, received);
      if t.conns[x].buf != [] && Judge(t.conns[x].buf).Accept? {
        GreetKeepsRelays(t, x, Judge(t.conns[x].buf).id, Judge(t.conns[x].buf).kind, g);
        GreetLeaves(t, x, Judge(t.conns[x].buf).id, Judge(t.conns[x].buf).kind, g, d);
      }
    }
  }

  lemma TimerLeaves(s: Server, now: TQ.TimeVal, id: seq<byte>, kind: Kind, d: nat)
    requires Linked(s)
    ensures StillThere(s, TimerFires(s, now), d) && StillThere(s, Delete(s, id, kind), d)
  {
    hide Find, TQ.Do, TQ.Expire, TQ.Overdue, NoDup, ParkedResources, Without, Destroyed;
  }

  lemma ConnectsLeave(s: Server, key: seq<U8>, a: int, b: nat, e: nat, d: nat)
    requires Named(s)
    ensures StillThere(s, DeviceConnects(s, key, a, b), d) && StillThere(s, BrowserConnects(s, key, e, a, b), d)
  {
    hide Initial;
  }

  lemma RelaysLeave(s: Server, x: nat, n: nat, d: nat)
    ensures StillThere(s, RelayReads(s, x, n), d) && StillThere(s, RelayWrites(s, x, n), d)
    ensures x != d ==> StillThere(s, RelayEnds(s, x), d)
  {
    hide Advance;
  }

  lemma StepLeaves(s: Server, key: seq<U8>, ev: Event, d: nat)
    requires Linked(s) && Named(s)
    requires !(ev.EvRead? && ev.d == d) && ev != EvRelayEnds(d)
    ensures StillThere(s, Step(s, key, ev), d)
  {
    assert s.next !in s.entries;
    match ev {
      case EvDevice(sock, p) => ConnectsLeave(s, key, sock, p, 0, d);
      case EvRead(x, received, g) => ReadsLeave(s, x, received, g, d);
      case EvBrowser(e, psock, m) => ConnectsLeave(s, key, psock, m, e, d);
      case EvRelayReads(x, n) => RelaysLeave(s, x, n, d);
      case EvRelayWrites(x, n) => RelaysLeave(s, x, n, d);
      case EvRelayEnds(x) => RelaysLeave(s, x, 0, d);
      case EvTimer(now) => TimerLeaves(s, now, [], Radmin, d);
      case EvDelete(id, kind) => TimerLeaves(s, TQ.TimeVal(0, 0), id, kind, d);
      case _ =>
    }
    hide Linked, Named, DeviceConnects, ConnReads, BrowserConnects, RelayReads, RelayWrites, RelayEnds,
      TimerFires, Delete, TQ.Finish, TQ.Do;
  }

  lemma RelayGoes(s: Server, key: seq<U8>, d: nat)
    requires Linked(s) && Owned(s)
    ensures var t := Step(s, key, EvRelayEnds(d)); t.conns == s.conns && d !in t.relays
    ensures d in s.relays ==>
            var t, l := Step(s, key, EvRelayEnds(d)), s.relays[d];
            forall r :: r in {Fd(l.tsock), Fd(l.psock), Mem(l.dec), Mem(l.enc)} ==> r in s.table && r !in t.table
  {
    if d in s.relays {
      var l := s.relays[d];
      assert Agrees(s, Tunnel(d), Fd(l.tsock)) && Agrees(s, Tunnel(d), Mem(l.dec));
      assert Agrees(s, Browser(d), Fd(l.psock)) && Agrees(s, Browser(d), Mem(l.enc));
    }
    hide Agrees, Linked;
  }

  /**
   * In every reachable state: a pending connection changes only by its own reading, and a relay lasts,
   * with its sockets and cells, until it is released; then all four are closed and freed.
   */
  lemma DeviceStays(key: seq<U8>, events: seq<Event>, ev: Event, d: nat)
    ensures var s, t := After(key, events), Step(After(key, events), key, ev);
            && (d in s.conns && !(ev.EvRead? && ev.d == d) ==> d in t.conns && t.conns[d] == s.conns[d])
            && (d in s.relays && ev != EvRelayEnds(d) ==> d in t.relays && Ends(t.relays[d]) == Ends(s.relays[d]))
            && (d in s.relays && ev == EvRelayEnds(d) ==>
                  var l := s.relays[d];
                  d !in t.relays && forall r :: r in {Fd(l.tsock), Fd(l.psock), Mem(l.dec), Mem(l.enc)} ==> r in s.table && r !in t.table)
  {
    var s := After(key, events);
    assert Linked(s) && Named(s) && Owned(s);
    hide After, Invariant, Linked, Named, Owned, Deciphers, Step, Ends;
    if ev == EvRelayEnds(d) {
      RelayGoes(s, key, d);
    } else if ev.EvRead? && ev.d == d {
      OthersKeepRelays(s, key, ev);
    } else {
      StepLeaves(s, key, ev, d);
    }
  }
}
