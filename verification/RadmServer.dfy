/**
 * The server process: the callbacks of radmsrv/radm.c on the linked list of entries, the timer
 * queue, the connections' buffers and the relays.  Each is proved to do what Registry says.
 */
module RadmServer {
  import opened Bytes
  import opened Rc4
  import opened Header
  import opened LinkedList
  import opened TimerLists
  import opened RadmConn
  import opened Relay
  import R = Registry
  import TQ = TimerQueue

  /** struct radmcli */
  type RadmCli = Node<R.Client>

  lemma FiresFacts(s: R.Server, key: seq<U8>, now: TQ.TimeVal)
    requires R.Invariant(s) && R.Deciphers(s, key) && TQ.Overdue(s.q, s.clock)
    ensures s.q.armed[0].timer in s.q.intervals
    ensures forall c :: c in s.list ==> c in s.entries
    ensures forall t :: t in s.timeouts ==> s.timeouts[t] in s.entries
    ensures var r := s.(q := TQ.Expire(s.q, now)); R.Listed(r) && R.Owned(r)
    ensures var r := R.TimerFires(s, now); R.Invariant(r) && R.Deciphers(r, key)
  {
    R.HeadExists(s.q);
    R.QueueOk(s, TQ.Expire(s.q, now));
    R.TimerFiresOk(s, now);
    R.EntriesListed(s);
    R.TimerFiresDeciphers(s, key, now);
    hide R.Listed, R.Owned, R.Named, R.Deciphers, R.TimerFires, TQ.Expire, TQ.Ok, TQ.Live;
  }

  lemma Ends(s: R.Server, d: nat)
    requires d in s.conns
    ensures d !in R.DropConn(s, d).conns
  {
  }

  /** A connection that has named its entry is no longer pending. */
  lemma GreetEnds(s: R.Server, d: nat, id: seq<byte>, kind: Kind, g: R.Grant)
    requires d in s.conns && R.Linked(s) && s.next !in s.entries
    ensures d !in R.Greet(s, d, id, kind, g).conns
  {
    hide R.Find, R.Slot, R.InsertAt, TQ.Do, R.ParkedResources, R.NoDup;
  }

  lemma ReadsFacts(s: R.Server, key: seq<U8>, d: nat, received: seq<byte>, g: R.Grant)
    requires R.Invariant(s) && R.Deciphers(s, key) && d in s.conns
    ensures s.conns[d].dec in s.ciphers
    ensures forall c :: c in s.list ==> c in s.entries
    ensures var t := R.Buffered(s, d, received);
            R.Linked(t) && t.next !in t.entries && d in t.conns && (R.Granted(s, g) ==> R.Granted(t, g))
    ensures R.Invariant(R.ConnReads(s, d, received, g)) && R.Deciphers(R.ConnReads(s, d, received, g), key)
  {
    R.ConnReadsOk(s, d, received, g);
    R.ConnReadsDeciphers(s, key, d, received, g);
    R.SockPositive(s, d);
    hide R.Deciphers, R.Sorted, R.Unique, R.EntryOk, R.NoDup, R.Owned, R.Timed, R.ConnReads, Crypt, Advance;
  }

  /** The registry without entry k of the list. */
  ghost function Removed(s: R.Server, k: nat): R.Server
    requires k < |s.list| && s.list[k] in s.entries
  {
    var c := s.entries[s.list[k]];
    s.(list := R.Without(s.list, k), entries := s.entries - {s.list[k]},
       table := s.table - ({R.Fd(c.lSock)} + R.ParkedResources(c)),
       q := R.Destroyed(s.q, c.deltimer), timeouts := s.timeouts - {c.deltimer})
  }

  lemma NoMinusOne(s: R.Server)
    requires R.Owned(s)
    ensures R.Fd(-1) !in s.table
  {
    hide R.Agrees;
  }

  lemma DeleteFacts(s: R.Server, id: seq<byte>, kind: Kind)
    requires R.Listed(s) && R.Owned(s)
    ensures R.Linked(s) && R.Fd(-1) !in s.table
    ensures forall c :: c in s.list ==> c in s.entries && R.EntryOk(s.entries[c])
    ensures var k := R.Find(s.entries, s.list, id, kind);
            R.Delete(s, id, kind) == if k < |s.list| then Removed(s, k) else s
  {
    hide R.Listed, R.Owned, R.EntryOk, R.Find, R.NoDup, R.Destroyed, R.ParkedResources;
    R.EntriesListed(s);
    NoMinusOne(s);
  }

  /** Node i of the list is entry i of the registry. */
  ghost predicate Mirrors(chain: seq<RadmCli>, s: R.Server, i: nat)
    requires i < |chain| == |s.list|
    reads chain`val
  {
    s.list[i] in s.entries && s.entries[s.list[i]] == chain[i].val
  }

  ghost predicate Listing(chain: seq<RadmCli>, s: R.Server)
    reads chain`val
  {
    && |chain| == |s.list|
    && (forall c :: c in s.list ==> c in s.entries)
    && forall i :: 0 <= i < |chain| ==> Mirrors(chain, s, i)
  }

  /** What a browser's connection needs to know of the entry it comes to. */
  lemma BrowserFacts(chain: seq<RadmCli>, s: R.Server, key: seq<U8>, k: nat, psock: int, m: nat)
    requires Listing(chain, s) && R.Invariant(s) && R.Deciphers(s, key) && k < |chain|
    requires chain[k].val.accepting && chain[k].val.dec.Some? && psock > 0 && R.Fd(psock) !in s.table && R.Mem(m) !in s.table
    ensures R.NoDup(s.list) && s.list[k] in s.entries && s.entries[s.list[k]] == chain[k].val
    ensures var r := R.BrowserConnects(s, key, s.list[k], psock, m);
            && R.Invariant(r) && R.Deciphers(r, key) && r.list == s.list
            && r.entries == s.entries[s.list[k] := chain[k].val.(rSock := -1, dec := None, accepting := false)] && r.q == s.q
  {
    assert Mirrors(chain, s, k);
    R.BrowserConnectsOk(s, key, s.list[k], psock, m);
    R.BrowserConnectsDeciphers(s, key, s.list[k], psock, m);
    hide R.Owned, R.Named, R.Timed, R.Deciphers, R.Sorted, R.Unique, R.NoDup, R.EntryOk, Initial;
  }

  /** close */
  function Closed(table: map<R.Resource, R.Owner>, fd: int): map<R.Resource, R.Owner> {
    table - {R.Fd(fd)}
  }

  /** free of a cipher state */
  function Freed(table: map<R.Resource, R.Owner>, p: nat): map<R.Resource, R.Owner> {
    table - {R.Mem(p)}
  }

  lemma DifferentNames(list: seq<nat>, i: nat, k: nat)
    requires R.NoDup(list) && i < |list| && k < |list| && i != k
    ensures list[i] != list[k]
  {
  }

  /** The listing is about entries and list only. */
  lemma SameListing(chain: seq<RadmCli>, s: R.Server, r: R.Server)
    requires Listing(chain, s) && r.entries == s.entries && r.list == s.list
    ensures Listing(chain, r)
  {
    forall i | 0 <= i < |chain| ensures Mirrors(chain, r, i) {
      assert Mirrors(chain, s, i);
    }
  }

  lemma ListingInserted(chain: seq<RadmCli>, s: R.Server, k: nat, cli: RadmCli, r: R.Server)
    requires Listing(chain, s) && s.next !in s.entries && k <= |chain|
    requires r.entries == s.entries[s.next := cli.val] && r.list == R.InsertAt(s.list, k, s.next)
    ensures Listing(Spliced(chain, k, cli), r)
  {
    forall i | 0 <= i < |chain| + 1 ensures Mirrors(Spliced(chain, k, cli), r, i) {
      if i != k {
        assert Mirrors(chain, s, if i < k then i else i - 1);
      }
    }
  }

  lemma ListingDropped(chain: seq<RadmCli>, s: R.Server, k: nat, r: R.Server)
    requires Listing(chain, s) && k < |chain| && R.NoDup(s.list)
    requires r.entries == s.entries - {s.list[k]} && r.list == R.Without(s.list, k)
    ensures Listing(Dropped(chain, k), r)
  {
    R.WithoutFacts(s.list, k);
    forall i | 0 <= i < |chain| - 1 ensures Mirrors(Dropped(chain, k), r, i) {
      assert r.list[i] in r.list;
      assert Mirrors(chain, s, if i < k then i else i + 1);
    }
  }

  /** What the registry has for a pending connection: itself and its cipher. */
  ghost predicate SameConn(s: R.Server, t: R.Server, x: nat) {
    x in s.conns && s.conns[x].dec in s.ciphers ==>
      && x in t.conns && t.conns[x] == s.conns[x]
      && s.conns[x].dec in t.ciphers && t.ciphers[s.conns[x].dec] == s.ciphers[s.conns[x].dec]
  }

  lemma GreetOthers(s: R.Server, d: nat, id: seq<byte>, kind: Kind, g: R.Grant, x: nat)
    requires d in s.conns && x != d && R.Linked(s) && s.next !in s.entries
    ensures SameConn(s, R.Greet(s, d, id, kind, g), x)
  {
    hide R.Find, R.Slot, R.InsertAt, TQ.Do, R.ParkedResources, R.NoDup;
  }

  /** Two pending connections have two ciphers. */
  lemma TwoCells(s: R.Server, d: nat, x: nat)
    requires R.Owned(s) && d in s.conns && x in s.conns && x != d
    ensures s.conns[d].dec != s.conns[x].dec
  {
    assert R.Agrees(s, R.Pending(d), R.Mem(s.conns[d].dec)) && R.Agrees(s, R.Pending(x), R.Mem(s.conns[d].dec));
  }

  lemma BufferedOthers(s: R.Server, d: nat, received: seq<byte>, x: nat)
    requires R.Owned(s) && d in s.conns && s.conns[d].dec in s.ciphers && x != d
    ensures SameConn(s, R.Buffered(s, d, received), x)
  {
    if x in s.conns {
      TwoCells(s, d, x);
    }
    hide R.Owned, Crypt, Advance;
  }

  /** A callback for one connection leaves the others to the registry as they were. */
  lemma ReadsOthers(s: R.Server, d: nat, received: seq<byte>, g: R.Grant, x: nat)
    requires R.Owned(s) && R.Linked(s) && R.Named(s) && x != d
    ensures SameConn(s, R.ConnReads(s, d, received, g), x)
  {
    hide R.Greet, R.NoDup, Judge, Crypt, Advance;
    if d in s.conns && s.conns[d].dec in s.ciphers && received != [] && |s.conns[d].buf| + |received| <= HEADERSIZE {
      BufferedOthers(s, d, received, x);
      hide R.Owned;
      var t := R.Buffered(s, d, received);
      match Judge(t.conns[d].buf) {
        case Accept(kind, id) => GreetOthers(t, d, id, kind, g, x);
        case _ =>
      }
    }
  }

  lemma BrowserOthers(s: R.Server, key: seq<U8>, e: nat, psock: int, m: nat, x: nat)
    requires R.Owned(s)
    ensures SameConn(s, R.BrowserConnects(s, key, e, psock, m), x)
  {
    if x in s.conns {
      assert R.Agrees(s, R.Pending(x), R.Mem(s.conns[x].dec));
    }
    hide Initial;
  }

  lemma DeviceOthers(s: R.Server, key: seq<U8>, sock: int, p: nat, x: nat)
    requires R.Owned(s) && R.Named(s)
    ensures SameConn(s, R.DeviceConnects(s, key, sock, p), x)
  {
    if x in s.conns {
      assert R.Agrees(s, R.Pending(x), R.Mem(s.conns[x].dec));
    }
    hide Initial, R.Owned;
  }

  lemma DeleteOthers(s: R.Server, id: seq<byte>, kind: Kind, x: nat)
    requires R.Listed(s)
    ensures forall c :: c in s.list ==> c in s.entries
    ensures SameConn(s, R.Delete(s, id, kind), x)
  {
    R.EntriesListed(s);
    hide R.Listed, R.Find, R.Without, R.NoDup, R.ParkedResources, R.Destroyed;
  }

  lemma InvariantBrowser(s: R.Server, key: seq<U8>, e: nat, psock: int, m: nat, x: nat)
    requires R.Invariant(s)
    ensures SameConn(s, R.BrowserConnects(s, key, e, psock, m), x)
  {
    hide R.Listed, R.Owned, R.Named, R.Timed, R.BrowserConnects;
    BrowserOthers(s, key, e, psock, m, x);
  }

  lemma InvariantReads(s: R.Server, d: nat, received: seq<byte>, g: R.Grant, x: nat)
    requires R.Invariant(s) && x != d
    ensures forall c :: c in s.list ==> c in s.entries
    ensures SameConn(s, R.ConnReads(s, d, received, g), x)
  {
    hide R.Sorted, R.Unique, R.EntryOk, R.NoDup, R.Owned, R.Named, R.Timed, R.ConnReads;
    ReadsOthers(s, d, received, g, x);
  }

  lemma NamedBelow(s: R.Server, d: nat)
    requires R.Named(s) && d in s.conns
    ensures d < s.next
  {
  }

  /** The structs and arrays of a connection. */
  ghost predicate Part(o: object, c: Connection) {
    o == c || o == c.rc4Dec || o == c.buf || o == c.rc4Dec.m
  }

  /** Two connections share nothing. */
  ghost predicate Separate(a: Connection, b: Connection) {
    && a != b && a.device != b.device
    && a.buf != b.buf && a.rc4Dec != b.rc4Dec && a.rc4Dec.m != b.rc4Dec.m
    && a.buf as object != b.rc4Dec.m && b.buf as object != a.rc4Dec.m
  }

  class RadmSrv {
    const rc4Key: seq<U8>
    /** The timer queue of the process. */
    const timers: Timers
    var clients: Node?<R.Client>

    ghost var chain: seq<RadmCli>
    /** The registry this server stands for. */
    ghost var model: R.Server

    /** The entries of the registry are the nodes of the list, in its order, and its queue is the timers'. */
    ghost predicate Valid()
      reads this, chain, timers, timers.Nodes()
    {
      && Listing(chain, model) && Chain(clients, chain) && NoDup(chain)
      && timers.Linked() && model.q == timers.View()
    }

    /** Entries are old ones or newly allocated. */
    twostate predicate Renewed(before: seq<RadmCli>, timerNodes: set<TimerEntry>)
      reads this, chain, timers, timers.Nodes()
    {
      && Valid() && timers.Grown(timerNodes)
      && forall n :: n in chain && n !in before ==> fresh(n)
    }

    /** radmsrv_create */
    constructor (key: seq<U8>)
      ensures Valid() && fresh(timers) && chain == []
      ensures model == R.EMPTY && R.Invariant(model) && R.Deciphers(model, key) && rc4Key == key
    {
      rc4Key := key;
      timers := new Timers();
      clients, chain, model := null, [], R.EMPTY;
      new;
      R.EmptyOk(key);
      hide R.Invariant, R.Deciphers;
    }

    /** The entries are stored apart from the timer queue. */
    lemma Apart()
      ensures forall n :: n in timers.Nodes() ==> n as object != this
      ensures forall n, i :: n in timers.Nodes() && 0 <= i < |chain| ==> chain[i] as object != n
      ensures timers as object != this
    {
    }

    /** An operation on a deletion timer. */
    method Time(op: TQ.Op)
      requires Valid()
      modifies this`model, timers, timers.Nodes()
      ensures Renewed(chain, old(timers.Nodes()))
      ensures model == old(model).(q := TQ.Do(old(model).q, op))
    {
      hide TQ.Do, Timers.Linked, Listing;
      Apart();
      timers.Perform(op);
      SameListing(chain, model, model.(q := timers.View()));
      model := model.(q := timers.View());
    }

    /** Two of them. */
    method Twice(first: TQ.Op, second: TQ.Op)
      requires Valid()
      modifies this`model, timers, timers.Nodes()
      ensures Renewed(chain, old(timers.Nodes()))
      ensures model == old(model).(q := TQ.Do(TQ.Do(old(model).q, first), second))
    {
      hide TQ.Do, Timers.Linked, Timers.Nodes, Listing, Chain, NoDup;
      Time(first);
      Time(second);
    }

    /** radmsrv_find_client: walks the list; restarts the deletion timer of the entry it finds. */
    method FindClient(id: seq<byte>, kind: Kind, now: TQ.TimeVal) returns (cli: Node?<R.Client>, ghost k: nat)
      requires Valid()
      modifies this`model, timers, timers.Nodes()
      ensures Renewed(chain, old(timers.Nodes()))
      ensures k == R.Find(old(model).entries, old(model).list, id, kind)
      ensures if k < |chain| then cli == chain[k] && model == R.Touch(old(model), old(model).list[k], now)
              else cli == null && model == old(model)
    {
      hide R.Find, TQ.Do;
      cli, k := clients, 0;
      while cli != null && !(cli.val.id == id && cli.val.kind == kind)
        invariant 0 <= k <= |chain| && cli == if k < |chain| then chain[k] else null
        invariant k <= R.Find(model.entries, model.list, id, kind)
        decreases |chain| - k
        modifies {}
      {
        assert Joined(chain, k) && Mirrors(chain, model, k);
        cli := cli.next;
        k := k + 1;
      }
      if cli != null {
        assert Mirrors(chain, model, k);
        Twice(TQ.OpStop(cli.val.deltimer), TQ.OpStart(cli.val.deltimer, 1, now));
      }
    }

    lemma Lengths()
      requires Valid()
      ensures |chain| == |model.list| && forall c :: c in model.list ==> c in model.entries
    {
    }

    /** The search of radmsrv_new_client: the node to link after, or null for the front. */
    method Predecessor(id: seq<byte>) returns (tmp: Node?<R.Client>, ghost k: nat)
      requires Valid()
      ensures k == R.Slot(model.entries, model.list, id) && k <= |chain| && tmp == if k == 0 then null else chain[k - 1]
    {
      hide R.Slot, R.StrCmp;
      ghost var slot := R.Slot(model.entries, model.list, id);
      k := 0;
      if clients == null || R.StrCmp(clients.val.id, id) > 0 {
        assert chain != [] ==> Mirrors(chain, model, 0);
        return null, 0;
      }
      assert Mirrors(chain, model, 0);
      tmp, k := clients, 1;
      while tmp.next != null && R.StrCmp(tmp.next.val.id, id) <= 0
        invariant 1 <= k <= |chain| && tmp == chain[k - 1] && k <= slot
        decreases |chain| - k
        modifies {}
      {
        assert Joined(chain, k - 1) && Mirrors(chain, model, k);
        tmp := tmp.next;
        k := k + 1;
      }
      assert Joined(chain, k - 1);
      assert k < |chain| ==> Mirrors(chain, model, k);
    }

    method Link(tmp: Node?<R.Client>, cli: RadmCli, ghost k: nat, l: int, t: nat)
      requires Valid() && model.next !in model.entries && cli !in chain
      requires k <= |chain| && tmp == if k == 0 then null else chain[k - 1]
      modifies this`clients, this`chain, this`model, chain`next, cli`next
      ensures Valid() && chain == Spliced(old(chain), k, cli)
      ensures var s, e := old(model), old(model).next;
              model == s.(entries := s.entries[e := cli.val], list := R.InsertAt(s.list, k, e),
                          table := s.table[R.Fd(l) := R.Listener(e)], next := e + 1, timeouts := s.timeouts[t := e])
    {
      hide Chain, NoDup;
      ghost var s, e := model, model.next;
      clients := LinkAfter(clients, tmp, cli, chain, k);
      chain := Spliced(chain, k, cli);
      model := s.(entries := s.entries[e := cli.val], list := R.InsertAt(s.list, k, e),
                  table := s.table[R.Fd(l) := R.Listener(e)], next := e + 1, timeouts := s.timeouts[t := e]);
      assert Listing(old(chain), s);
      ListingInserted(old(chain), s, k, cli, model);
    }

    /** radmsrv_new_client: a new entry with listening socket l, linked before the first greater id; its timer is started. */
    method NewClient(id: seq<byte>, kind: Kind, l: int, t: nat, now: TQ.TimeVal) returns (cli: RadmCli, ghost k: nat)
      requires Valid() && model.next !in model.entries
      modifies this`clients, this`chain, this`model, chain, timers, timers.Nodes()
      ensures Renewed(old(chain), old(timers.Nodes()))
      ensures model == R.NewClient(old(model), id, kind, l, t, now)
      ensures k < |chain| && cli == chain[k] && model.list[k] == old(model).next
    {
      hide R.Slot, TQ.Do, Listing, Chain, NoDup, Timers.View;
      cli := new Node(R.Client(id, kind, l, 0, None, 0, false, t, [], now));
      var tmp: Node?<R.Client>;
      tmp, k := Predecessor(id);
      Link(tmp, cli, k, l, t);
      Apart();
      Twice(TQ.OpCreate(t, R.DELETE_AFTER), TQ.OpStart(t, 1, now));
    }

    /** Entry k of the list is written. */
    method Write(cli: RadmCli, c: R.Client, ghost k: nat)
      requires Valid() && R.NoDup(model.list) && k < |chain| && cli == chain[k]
      modifies cli`val, this`model
      ensures Valid()
      ensures model == old(model).(entries := old(model).entries[old(model).list[k] := c])
    {
      hide R.NoDup;
      ghost var s := model;
      cli.val := c;
      model := s.(entries := s.entries[s.list[k] := c]);
      forall i | 0 <= i < |chain| ensures Mirrors(chain, model, i) {
        assert old(Mirrors(chain, s, i));
        if i != k {
          DifferentNames(s.list, i, k);
        }
      }
    }

    /** The tail of radmsrv_conn_callback: the connection's socket and cipher move into the entry. */
    method Park(conn: Connection, line: seq<byte>, cli: RadmCli, now: TQ.TimeVal, ghost k: nat)
      requires Valid() && R.NoDup(model.list) && k < |chain| && cli == chain[k]
      requires conn.device in model.conns && model.conns[conn.device] == R.Conn(conn.sock, conn.cell, line)
      modifies cli`val, this`model
      ensures Valid()
      ensures model == R.Park(old(model), conn.device, old(model).list[k], now)
    {
      hide Chain, NoDup, R.NoDup, Timers.Linked;
      Apart();
      ghost var e, table := model.list[k], model.table;
      var c := cli.val;
      assert Mirrors(chain, model, k);
      if c.rSock > 0 {
        table := Closed(table, c.rSock);
      }
      if c.dec.Some? {
        table := Freed(table, c.dec.value);
      }
      assert table == model.table - R.ParkedResources(c);
      Write(cli, c.(rSock := conn.sock, dec := Some(conn.cell), device := conn.device, accepting := true,
                   line := line, heard := now), k);
      table := table[R.Fd(conn.sock) := R.Parked(e)][R.Mem(conn.cell) := R.Parked(e)];
      ghost var r := model.(conns := model.conns - {conn.device}, table := table);
      SameListing(chain, model, r);
      model := r;
    }

    /** The connection object is the registry's pending connection of its device. */
    ghost predicate Serves(conn: Connection)
      reads this`model, conn, conn.rc4Dec, conn.rc4Dec.m, conn.buf
    {
      && conn.Valid()
      && conn.device in model.conns && model.conns[conn.device] == R.Conn(conn.sock, conn.cell, conn.Line())
      && conn.cell in model.ciphers && model.ciphers[conn.cell] == conn.rc4Dec.View()
    }

    /** radmsrv_accept_callback: accept gave sock, malloc cell p. */
    method AcceptConnection(sock: int, p: nat, d: nat, ghost others: set<Connection> := {}) returns (conn: Connection)
      requires Valid() && d == model.next
      requires R.Owned(model) && R.Named(model) && forall c :: c in others ==> Serves(c)
      requires sock > 0 && R.Fd(sock) !in model.table && R.Mem(p) !in model.table
      modifies this`model
      ensures Valid()
      ensures model == R.DeviceConnects(old(model), rc4Key, sock, p)
      ensures fresh(conn) && fresh(conn.rc4Dec) && Serves(conn) && conn.device == d
      ensures forall c :: c in others ==> Serves(c) && Separate(conn, c)
    {
      hide Initial, R.Owned, R.Named;
      ghost var s := model;
      conn := new Connection(sock, rc4Key, d, p);
      ghost var r := R.DeviceConnects(model, rc4Key, sock, p);
      SameListing(chain, model, r);
      model := r;
      forall c | c in others ensures Serves(c) && Separate(conn, c) {
        DeviceOthers(s, rc4Key, sock, p, c.device);
        NamedBelow(s, c.device);
      }
    }

    /** A connection is stored apart from the entries and the timers. */
    lemma ConnApart(conn: Connection)
      ensures conn as object != this && conn as object != timers && conn.rc4Dec as object != timers
      ensures conn.buf as object != timers && conn.rc4Dec.m as object != timers
      ensures forall n :: n in timers.Nodes() ==> n as object != conn && n as object != conn.rc4Dec && n as object != conn.buf && n as object != conn.rc4Dec.m
      ensures forall n :: n in chain ==> n as object != conn && n as object != conn.rc4Dec && n as object != conn.buf && n as object != conn.rc4Dec.m
    {
    }

    lemma ConnsApart(others: set<Connection>)
      ensures forall c, n :: c in others && n in timers.Nodes() ==> !Part(n, c)
      ensures forall c, n :: c in others && n in chain ==> !Part(n, c)
      ensures forall c :: c in others ==> !Part(this, c)
      ensures forall c :: c in others ==> !Part(timers, c)
    {
    }

    /** The error exit of radmsrv_conn_callback. */
    method DropConn(conn: Connection)
      requires Valid() && conn.device in model.conns
      requires model.conns[conn.device].sock == conn.sock && model.conns[conn.device].dec == conn.cell
      modifies this`model
      ensures Valid() && model == R.DropConn(old(model), conn.device)
    {
      ghost var r := model.(table := Freed(Closed(model.table, conn.sock), conn.cell), conns := model.conns - {conn.device});
      SameListing(chain, model, r);
      model := r;
    }

    /** recv and rc4_crypt */
    method Read(conn: Connection, received: seq<byte>)
      requires Valid() && Serves(conn) && conn.buflen + |received| <= HEADERSIZE
      modifies this`model, conn`buflen, conn.buf, conn.rc4Dec, conn.rc4Dec.m
      ensures Valid() && Serves(conn) && conn.buflen == old(conn.buflen) + |received|
      ensures model == R.Buffered(old(model), conn.device, received)
    {
      hide Crypt, Advance, Listing, Chain, NoDup, Timers.Linked;
      ghost var r := R.Buffered(model, conn.device, received);
      Apart();
      ConnApart(conn);
      conn.Receive(received);
      SameListing(chain, model, r);
      model := r;
    }

    /** What the system gives a connection that names a new entry: a listening socket, or none. */
    ghost predicate Grants(g: R.Grant)
      reads this`model
    {
      g.listener.Some? ==> R.Granted(model, g)
    }

    /** The entry a device asks for: found, or created with what the system grants, or none. */
    method FindOrCreate(id: seq<byte>, kind: Kind, g: R.Grant) returns (cli: Node?<R.Client>, ghost k: nat)
      requires Valid() && R.Linked(model) && model.next !in model.entries && Grants(g)
      modifies this`clients, this`chain, this`model, chain, timers, timers.Nodes()
      ensures Renewed(old(chain), old(timers.Nodes())) && R.NoDup(model.list)
      ensures cli != null ==> k < |chain| && cli == chain[k] && (cli in old(chain) || fresh(cli))
      ensures model.conns == old(model).conns
      ensures var s, i := old(model), R.Find(old(model).entries, old(model).list, id, kind);
              if i < |s.list| then cli != null && k == i && model == R.Touch(s, s.list[i], g.now)
              else if R.Granted(s, g) then
                cli != null && model == R.NewClient(s, id, kind, g.listener.value, g.timer, g.now) && model.list[k] == s.next
              else cli == null && model == s
    {
      hide R.Find, R.NewClient, R.NoDup, TQ.Do, Listing, Chain, NoDup;
      Lengths();
      cli, k := FindClient(id, kind, g.now);
      if cli == null && g.listener.Some? {
        R.NewClientLinked(model, id, kind, g.listener.value, g.timer, g.now);
        R.NewClientKeeps(model, id, kind, g.listener.value, g.timer, g.now);
        cli, k := NewClient(id, kind, g.listener.value, g.timer, g.now);
      }
    }

    /** The part of radmsrv_conn_callback after the line was understood. */
    method Greet(conn: Connection, line: seq<byte>, id: seq<byte>, kind: Kind, g: R.Grant)
      requires Valid() && R.Linked(model) && model.next !in model.entries && Grants(g)
      requires conn.device in model.conns && model.conns[conn.device] == R.Conn(conn.sock, conn.cell, line)
      modifies this`clients, this`chain, this`model, chain, timers, timers.Nodes()
      ensures Renewed(old(chain), old(timers.Nodes()))
      ensures model == R.Greet(old(model), conn.device, id, kind, g)
    {
      hide R.DropConn, R.Park, R.Find, R.NewClient, R.NoDup, TQ.Do, Grants, Listing, Chain, NoDup, Timers.Linked, Timers.Nodes;
      Lengths();
      ghost var s := model;
      var cli: Node?<R.Client>;
      ghost var k;
      cli, k := FindOrCreate(id, kind, g);
      if cli == null {
        DropConn(conn);
      } else {
        Park(conn, line, cli, g.now, k);
      }
    }

    /** What the line deserves: read on, drop, or park. */
    method Heed(conn: Connection, line: seq<byte>, v: Verdict, g: R.Grant)
      requires Valid() && R.Linked(model) && model.next !in model.entries && Grants(g)
      requires conn.device in model.conns && model.conns[conn.device] == R.Conn(conn.sock, conn.cell, line)
      modifies this`clients, this`chain, this`model, chain, timers, timers.Nodes()
      ensures Renewed(old(chain), old(timers.Nodes()))
      ensures model == match v
                       case More => old(model)
                       case Refuse => R.DropConn(old(model), conn.device)
                       case Accept(kind, id) => R.Greet(old(model), conn.device, id, kind, g)
      ensures conn.device in model.conns ==> v.More?
    {
      hide R.DropConn, R.Greet, R.NoDup, Grants, Listing, Chain, NoDup;
      match v {
        case More =>
        case Refuse => DropConn(conn);
        case Accept(kind, id) =>
          GreetEnds(model, conn.device, id, kind, g);
          Greet(conn, line, id, kind, g);
      }
      Ends(old(model), conn.device);
    }

    /** radmsrv_conn_callback from the test for the newline on. */
    method Digest(conn: Connection, g: R.Grant)
      requires Valid() && R.Linked(model) && model.next !in model.entries && Grants(g)
      requires Serves(conn) && conn.buflen > 0
      modifies this`clients, this`chain, this`model, chain, timers, timers.Nodes(), conn.buf
      ensures Renewed(old(chain), old(timers.Nodes()))
      ensures model == match Judge(old(conn.Line()))
                       case More => old(model)
                       case Refuse => R.DropConn(old(model), conn.device)
                       case Accept(kind, id) => R.Greet(old(model), conn.device, id, kind, g)
      ensures conn.device in model.conns ==> Serves(conn)
    {
      hide Judge, R.DropConn, R.Greet, R.NoDup, Grants, Listing, Chain, NoDup, Timers.Linked;
      Lengths();
      Apart();
      ConnApart(conn);
      var line := conn.buf[..conn.buflen];
      var v := conn.Understand();
      Heed(conn, line, v, g);
    }

    method Answer(conn: Connection, received: seq<byte>, g: R.Grant)
      requires Valid() && R.Invariant(model) && R.Deciphers(model, rc4Key)
      requires Serves(conn) && conn.buflen + |received| <= HEADERSIZE && Grants(g)
      modifies this`clients, this`chain, this`model, chain, timers, timers.Nodes()
      modifies conn`buflen, conn.buf, conn.rc4Dec, conn.rc4Dec.m
      ensures Renewed(old(chain), old(timers.Nodes())) && R.Invariant(model) && R.Deciphers(model, rc4Key)
      ensures model == R.ConnReads(old(model), conn.device, received, g)
      ensures conn.device in model.conns ==> Serves(conn)
    {
      hide R.Invariant, R.Deciphers, Judge, R.DropConn, R.Greet, R.Buffered, Crypt, Advance, Listing, Chain, NoDup, Timers.Linked;
      ghost var s := model;
      ReadsFacts(s, rc4Key, conn.device, received, g);
      Apart();
      ConnApart(conn);
      if received == [] {
        DropConn(conn);
        Ends(s, conn.device);
        return;
      }
      Read(conn, received);
      Digest(conn, g);
    }

    /**
     * radmsrv_conn_callback: recv returned `received`, nothing on an error or end of stream.  Other
     * connections are served as before.
     */
    method ConnCallback(conn: Connection, received: seq<byte>, g: R.Grant, ghost others: set<Connection> := {})
      requires Valid() && R.Invariant(model) && R.Deciphers(model, rc4Key)
      requires Serves(conn) && conn.buflen + |received| <= HEADERSIZE && Grants(g)
      requires forall c :: c in others ==> Serves(c) && Separate(conn, c)
      modifies this`clients, this`chain, this`model, chain, timers, timers.Nodes()
      modifies conn`buflen, conn.buf, conn.rc4Dec, conn.rc4Dec.m
      ensures Renewed(old(chain), old(timers.Nodes())) && R.Invariant(model) && R.Deciphers(model, rc4Key)
      ensures model == R.ConnReads(old(model), conn.device, received, g)
      ensures conn.device in model.conns ==> Serves(conn)
      ensures forall c :: c in others ==> Serves(c)
    {
      hide R.Invariant, R.Deciphers, R.ConnReads, Listing, Chain, NoDup, Timers.Linked, Timers.Nodes, Timers.View;
      Lengths();
      ghost var s := model;
      forall c | c in others ensures SameConn(s, R.ConnReads(s, conn.device, received, g), c.device) {
        InvariantReads(s, conn.device, received, g, c.device);
      }
      ConnsApart(others);
      Answer(conn, received, g);
    }

    /** do_forward takes over the sockets and the ciphers, and the entry gives them up; the registry is r then. */
    method HandOver(cli: RadmCli, dec: Rc4State, psock: int, ghost k: nat, ghost r: R.Server) returns (fwd: Fwd)
      requires Valid() && R.NoDup(model.list) && k < |chain| && cli == chain[k] && dec.Valid()
      requires r.list == model.list && r.q == model.q
      requires r.entries == model.entries[model.list[k] := cli.val.(rSock := -1, dec := None, accepting := false)]
      modifies cli`val, this`model
      ensures Valid() && model == r
      ensures fresh(fwd) && fwd.Valid() && !fwd.released && fwd.rc4Dec == dec && fresh(fwd.rc4Enc)
      ensures fwd.tsock == old(cli.val.rSock) && fwd.psock == psock
      ensures fwd.TDir() == Half(old(dec.View()), []) && fwd.PDir() == Half(Initial(rc4Key), [])
    {
      hide R.NoDup, Listing, Chain, NoDup, Timers.Linked, Timers.View, Initial;
      assert forall n :: n in timers.Nodes() ==> allocated(n);
      var enc := new Rc4State(rc4Key);
      fwd := new Fwd(cli.val.rSock, psock, enc, dec);
      Write(cli, cli.val.(rSock := -1, dec := None, accepting := false), k);
      SameListing(chain, model, r);
      model := r;
    }

    /**
     * radmcli_accept_callback: accept gave psock, `allowed` says that the address check passed, and
     * malloc gave cell m; dec is the cipher the entry holds.
     */
    method AcceptCallback(cli: RadmCli, dec: Rc4State, psock: int, allowed: bool, ghost m: nat, ghost k: nat,
                          ghost others: set<Connection> := {}) returns (fwd: Fwd?)
      requires forall c :: c in others ==> Serves(c)
      requires Valid() && R.Invariant(model) && R.Deciphers(model, rc4Key)
      requires k < |chain| && cli == chain[k] && cli.val.accepting && cli.val.dec.Some?
      requires dec.Valid() && cli.val.dec.value in model.ciphers && model.ciphers[cli.val.dec.value] == dec.View()
      requires psock > 0 ==> R.Fd(psock) !in model.table && R.Mem(m) !in model.table
      modifies cli`val, this`model
      ensures Valid() && R.Invariant(model) && R.Deciphers(model, rc4Key)
      ensures fwd != null <==> psock > 0 && allowed
      ensures model == if fwd == null then old(model) else R.BrowserConnects(old(model), rc4Key, old(model).list[k], psock, m)
      ensures fwd != null ==>
                && fresh(fwd) && fwd.Valid() && !fwd.released
                && fwd.tsock == old(cli.val.rSock) && fwd.psock == psock && fwd.rc4Dec == dec && fresh(fwd.rc4Enc)
                && fwd.TDir() == Half(old(model).ciphers[old(cli.val).dec.value], [])
                && fwd.PDir() == Half(Initial(rc4Key), [])
      ensures forall c :: c in others ==> Serves(c)
    {
      hide R.Invariant, R.Deciphers, R.BrowserConnects, Listing, Chain, NoDup, Timers.Linked, Timers.View, Initial;
      fwd := null;
      if psock <= 0 || !allowed {
        return;
      }
      Lengths();
      BrowserFacts(chain, model, rc4Key, k, psock, m);
      ghost var r := R.BrowserConnects(model, rc4Key, model.list[k], psock, m);
      forall c | c in others ensures SameConn(model, r, c.device) {
        InvariantBrowser(model, rc4Key, model.list[k], psock, m, c.device);
      }
      ConnsApart(others);
      fwd := HandOver(cli, dec, psock, k, r);
    }

    /** The search of radmsrv_del: the first matching entry, or null, and the one before it. */
    method Locate(id: seq<byte>, kind: Kind) returns (pp: Node?<R.Client>, cli: Node?<R.Client>, ghost k: nat)
      requires Valid() && clients != null
      ensures k == R.Find(model.entries, model.list, id, kind) && k <= |chain|
      ensures cli == (if k < |chain| then chain[k] else null) && pp == if k == 0 then null else chain[k - 1]
    {
      hide R.Find;
      ghost var found := R.Find(model.entries, model.list, id, kind);
      k := 0;
      assert Mirrors(chain, model, 0);
      if clients.val.id == id && clients.val.kind == kind {
        return null, clients, 0;
      }
      pp, k := clients, 1;
      while pp.next != null && !(pp.next.val.id == id && pp.next.val.kind == kind)
        invariant 1 <= k <= |chain| && pp == chain[k - 1] && k <= found
        decreases |chain| - k
        modifies {}
      {
        assert Joined(chain, k - 1) && Mirrors(chain, model, k);
        pp := pp.next;
        k := k + 1;
      }
      assert Joined(chain, k - 1);
      assert k < |chain| ==> Mirrors(chain, model, k);
      cli := pp.next;
    }

    method Take(pp: Node?<R.Client>, cli: RadmCli, ghost k: nat)
      requires Valid() && R.Linked(model) && clients != null
      requires k < |chain| && cli == chain[k] && pp == if k == 0 then null else chain[k - 1]
      modifies this`clients, this`chain, this`model, chain`next
      ensures Valid() && chain == Dropped(old(chain), k) && forall n :: n in chain ==> n in old(chain)
      ensures var s := old(model); model == s.(list := R.Without(s.list, k), entries := s.entries - {s.list[k]})
    {
      hide Chain, NoDup, R.NoDup, R.Without, Listing, Timers.Linked, Timers.View;
      Apart();
      Lengths();
      ghost var s := model;
      ghost var r := s.(list := R.Without(s.list, k), entries := s.entries - {s.list[k]});
      clients := Bypass(clients, pp, cli, chain, k);
      chain := Dropped(chain, k);
      ListingDropped(old(chain), s, k, r);
      model := r;
    }

    /** radmcli_release; closing descriptor -1 does nothing. */
    method Release(cli: RadmCli)
      requires Valid() && R.EntryOk(cli.val) && R.Fd(-1) !in model.table
      modifies this`model, timers, timers.Nodes()
      ensures Renewed(chain, old(timers.Nodes()))
      ensures var s, c := old(model), cli.val;
              model == s.(table := s.table - ({R.Fd(c.lSock)} + R.ParkedResources(c)),
                          q := R.Destroyed(s.q, c.deltimer), timeouts := s.timeouts - {c.deltimer})
    {
      hide TQ.Do, Chain, NoDup, Listing, Timers.Linked, Timers.Nodes, Timers.View;
      Twice(TQ.OpStop(cli.val.deltimer), TQ.OpDestroy(cli.val.deltimer));
      ghost var table := Closed(Closed(model.table, cli.val.lSock), cli.val.rSock);
      if cli.val.dec.Some? {
        table := Freed(table, cli.val.dec.value);
      }
      ghost var r := model.(table := table, timeouts := model.timeouts - {cli.val.deltimer});
      SameListing(chain, model, r);
      model := r;
    }

    /** Entry k is taken out of the list, and radmcli_release closes and frees what it holds. */
    method Unlink(pp: Node?<R.Client>, cli: RadmCli, ghost k: nat)
      requires Valid() && R.Linked(model) && clients != null
      requires k < |chain| && cli == chain[k] && pp == if k == 0 then null else chain[k - 1]
      requires R.EntryOk(cli.val) && R.Fd(-1) !in model.table
      modifies this`clients, this`chain, this`model, chain`next, timers, timers.Nodes()
      ensures Renewed(old(chain), old(timers.Nodes()))
      ensures model == Removed(old(model), k)
    {
      hide Chain, NoDup, R.NoDup, TQ.Do, Timers.Linked;
      ghost var s := model;
      assert Mirrors(chain, s, k);
      Take(pp, cli, k);
      Release(cli);
    }

    /** radmsrv_del: 0 when an entry was removed, -1 otherwise; the list must not be empty. */
    method Del(id: seq<byte>, kind: Kind, ghost others: set<Connection> := {}) returns (res: int)
      requires Valid() && R.Listed(model) && R.Owned(model) && clients != null
      requires forall c :: c in others ==> Serves(c)
      modifies this`clients, this`chain, this`model, chain`next, timers, timers.Nodes()
      ensures Renewed(old(chain), old(timers.Nodes()))
      ensures model == R.Delete(old(model), id, kind)
      ensures res == if R.Find(old(model).entries, old(model).list, id, kind) < |old(model).list| then 0 else -1
      ensures forall c :: c in others ==> Serves(c)
    {
      hide R.Listed, R.Owned, R.EntryOk, Removed, R.Find, R.Linked, R.Delete, Chain, NoDup, Timers.Linked;
      DeleteFacts(model, id, kind);
      ConnsApart(others);
      forall c | c in others ensures SameConn(model, R.Delete(model, id, kind), c.device) {
        DeleteOthers(model, id, kind, c.device);
      }
      var pp, cli;
      ghost var k;
      pp, cli, k := Locate(id, kind);
      if cli == null {
        return -1;
      }
      assert Mirrors(chain, model, k);
      Unlink(pp, cli, k);
      res := 0;
    }

    /** timeout_del */
    method TimeoutDel(cli: RadmCli, ghost k: nat, ghost others: set<Connection> := {})
      requires forall c :: c in others ==> Serves(c)
      requires Valid() && R.Listed(model) && R.Owned(model) && k < |chain| && cli == chain[k]
      modifies this`clients, this`chain, this`model, chain`next, timers, timers.Nodes()
      ensures Renewed(old(chain), old(timers.Nodes()))
      ensures model == R.TimeoutDel(old(model), old(model).list[k])
      ensures forall c :: c in others ==> Serves(c)
    {
      hide R.Listed, R.Owned, R.Delete, NoDup, Timers.Linked;
      assert Mirrors(chain, model, k);
      var _ := Del(cli.val.id, cli.val.kind, others);
    }

    method Expire(now: TQ.TimeVal)
      requires Valid() && timers.armed != [] && timers.armed[0].val.timer in model.q.intervals
      modifies this`model, timers, timers.Nodes()
      ensures Renewed(chain, old(timers.Nodes()))
      ensures old(model).q.armed != [] && old(model).q.armed[0] == old(timers.armed[0].val)
      ensures model == old(model).(q := TQ.Expire(old(model).q, now))
    {
      hide TQ.Expire, Timers.Linked, Listing, Chain, NoDup;
      Apart();
      var _ := timers.ExpireHead(now);
      SameListing(chain, model, model.(q := timers.View()));
      model := model.(q := timers.View());
    }

    /** The head of the timer list expires; cli is the context of its timer, if that is a deletion timer. */
    method TimerFires(now: TQ.TimeVal, cli: Node?<R.Client>, ghost k: nat, ghost others: set<Connection> := {})
      requires forall c :: c in others ==> Serves(c)
      requires Valid() && R.Invariant(model) && R.Deciphers(model, rc4Key) && timers.lock && TQ.Overdue(model.q, model.clock)
      requires var t := timers.armed[0].val.timer;
               if t in model.timeouts then cli != null && k < |chain| && cli == chain[k] && model.list[k] == model.timeouts[t]
               else cli == null
      modifies this`clients, this`chain, this`model, chain`next, timers, timers.Nodes()
      ensures Renewed(old(chain), old(timers.Nodes())) && R.Invariant(model) && R.Deciphers(model, rc4Key)
      ensures model == R.TimerFires(old(model), now)
      ensures forall c :: c in others ==> Serves(c)
    {
      hide R.Listed, R.Owned, R.Named, R.Timed, R.Deciphers, TQ.Expire, Timers.Linked, Timers.Nodes, Listing, Chain, NoDup;
      FiresFacts(model, rc4Key, now);
      Lengths();
      ConnsApart(others);
      Expire(now);
      if cli != null {
        TimeoutDel(cli, k, others);
      }
    }
  }
}
