/**
 * The poll registration table as a value: slots, some of them tombstones, and the counter of
 * pending compactions.  What it stands for is an insertion-ordered map from
 * (descriptor, context, callback) to the events asked for.
 */
module PollTable {
  type bits = bv8

  const POLLIN: bits := 0x01
  const POLLPRI: bits := 0x02
  const POLLOUT: bits := 0x04
  const POLLERR: bits := 0x08
  const POLLHUP: bits := 0x10
  const POLLNVAL: bits := 0x20

  const SOCKIN: bits := 0x1
  const SOCKOUT: bits := 0x4
  const SOCKERR: bits := 0x8

  /** Row i of pfd_list and pfd_call_backs. */
  datatype Slot = Slot(fd: int, events: bits, revents: bits, ctxt: nat, callBack: nat)

  datatype Table = Table(slots: seq<Slot>, defrag: nat)

  // ----- the operations

  predicate Matches(s: Slot, sock: int, inst: nat, callBack: nat) {
    s.fd == sock && s.ctxt == inst && s.callBack == callBack
  }

  /** find_registered_sock: the first matching slot, or the count. */
  function Find(slots: seq<Slot>, sock: int, inst: nat, callBack: nat): (k: nat)
    ensures k <= |slots|
    ensures forall i :: 0 <= i < k ==> !Matches(slots[i], sock, inst, callBack)
    ensures k < |slots| ==> Matches(slots[k], sock, inst, callBack)
  {
    if slots == [] || Matches(slots[0], sock, inst, callBack) then 0
    else 1 + Find(slots[1..], sock, inst, callBack)
  }

  function Bury(s: Slot): Slot {
    s.(fd := -1, events := 0)
  }

  function Unregister(t: Table, sock: int, inst: nat, callBack: nat): Table {
    var k := Find(t.slots, sock, inst, callBack);
    if k < |t.slots| then Table(t.slots[k := Bury(t.slots[k])], t.defrag + 1) else t
  }

  function BuryAll(slots: seq<Slot>, inst: nat): (r: seq<Slot>)
    ensures |r| == |slots|
    ensures forall i :: 0 <= i < |slots| ==> r[i] == if slots[i].ctxt == inst then Bury(slots[i]) else slots[i]
  {
    seq(|slots|, i requires 0 <= i < |slots| => if slots[i].ctxt == inst then Bury(slots[i]) else slots[i])
  }

  function CountObject(slots: seq<Slot>, inst: nat): nat {
    if slots == [] then 0
    else CountObject(slots[..|slots| - 1], inst) + if slots[|slots| - 1].ctxt == inst then 1 else 0
  }

  function UnregisterObject(t: Table, inst: nat): Table {
    Table(BuryAll(t.slots, inst), t.defrag + CountObject(t.slots, inst))
  }

  /** register_sock; `stale` is what the unused row held as revents. */
  function Register(t: Table, sock: int, events: bits, inst: nat, callBack: nat, stale: bits): Table {
    var k := Find(t.slots, sock, inst, callBack);
    if k < |t.slots| then t.(slots := t.slots[k := t.slots[k].(events := events)])
    else t.(slots := t.slots + [Slot(sock, events, stale, inst, callBack)])
  }

  /** The slots that are not tombstones, in order. */
  function Alive(slots: seq<Slot>): seq<Slot> {
    if slots == [] then []
    else Alive(slots[..|slots| - 1]) + if slots[|slots| - 1].fd == -1 then [] else [slots[|slots| - 1]]
  }

  ghost predicate HasTombstone(slots: seq<Slot>) {
    exists i :: 0 <= i < |slots| && slots[i].fd == -1
  }

  /** pfd_defragment: the first loop looks for a tombstone; without one the count becomes 0. */
  ghost function Defragment(t: Table): Table {
    Table(if HasTombstone(t.slots) then Alive(t.slots) else [], 0)
  }

  // ----- what the table stands for

  datatype Key = Key(fd: int, ctxt: nat, callBack: nat)
  datatype Item = Item(key: Key, events: bits)

  function ItemOf(s: Slot): Item {
    Item(Key(s.fd, s.ctxt, s.callBack), s.events)
  }

  /** The registrations in insertion order. */
  function Items(slots: seq<Slot>): seq<Item> {
    if slots == [] then []
    else Items(slots[..|slots| - 1])
         + if slots[|slots| - 1].fd == -1 then [] else [ItemOf(slots[|slots| - 1])]
  }

  /** The ordered map: a new key goes to the end, a known one changes in place. */
  function Put(m: seq<Item>, item: Item): seq<Item> {
    if m == [] then [item]
    else if m[0].key == item.key then [item] + m[1..]
    else [m[0]] + Put(m[1..], item)
  }

  function Remove(m: seq<Item>, key: Key): seq<Item> {
    if m == [] then [] else (if m[0].key == key then [] else [m[0]]) + Remove(m[1..], key)
  }

  function RemoveObject(m: seq<Item>, inst: nat): seq<Item> {
    if m == [] then [] else (if m[0].key.ctxt == inst then [] else [m[0]]) + RemoveObject(m[1..], inst)
  }

  ghost predicate DistinctKeys(m: seq<Item>) {
    forall i, j :: 0 <= i < j < |m| ==> m[i].key != m[j].key
  }

  ghost predicate Registered(t: Table, key: Key) {
    exists i :: 0 <= i < |t.slots| && t.slots[i].fd != -1 && ItemOf(t.slots[i]).key == key
  }

  ghost predicate LiveDistinct(slots: seq<Slot>) {
    forall i, j :: 0 <= i < j < |slots| && slots[i].fd != -1 && slots[j].fd != -1 ==>
      ItemOf(slots[i]).key != ItemOf(slots[j]).key
  }

  /** Descriptors are non-negative, live keys are distinct, and compaction is pending exactly when there is a tombstone. */
  ghost predicate Ok(t: Table) {
    && (forall i :: 0 <= i < |t.slots| ==> t.slots[i].fd >= -1)
    && LiveDistinct(t.slots)
    && (t.defrag > 0 <==> HasTombstone(t.slots))
  }

  // ----- structure lemmas: Items, Put and Remove over concatenations

  lemma {:induction false} ItemsConcat(a: seq<Slot>, b: seq<Slot>)
    ensures Items(a + b) == Items(a) + Items(b)
    decreases |b|
  {
    if b == [] {
      assert a + b == a;
    } else {
      var b' := b[..|b| - 1];
      assert (a + b)[..|a + b| - 1] == a + b';
      ItemsConcat(a, b');
    }
  }

  lemma {:induction false} ItemsOf(slots: seq<Slot>, item: Item)
    ensures item in Items(slots) <==> exists i :: 0 <= i < |slots| && slots[i].fd != -1 && ItemOf(slots[i]) == item
    decreases |slots|
  {
    if slots != [] {
      var n := |slots| - 1;
      ItemsOf(slots[..n], item);
      if item in Items(slots[..n]) {
        var i :| 0 <= i < n && slots[..n][i].fd != -1 && ItemOf(slots[..n][i]) == item;
        assert slots[i] == slots[..n][i];
      }
      if i :| 0 <= i < |slots| && slots[i].fd != -1 && ItemOf(slots[i]) == item {
        if i < n {
          assert slots[..n][i] == slots[i];
        }
      }
    }
  }

  lemma {:induction false} PutSplit(a: seq<Item>, b: seq<Item>, item: Item)
    requires forall x :: x in a ==> x.key != item.key
    ensures Put(a + b, item) == a + Put(b, item)
    decreases |a|
  {
    if a == [] {
      assert a + b == b && a + Put(b, item) == Put(b, item);
    } else {
      assert (a + b)[1..] == a[1..] + b;
      PutSplit(a[1..], b, item);
    }
  }

  lemma {:induction false} RemoveSplit(a: seq<Item>, b: seq<Item>, key: Key)
    ensures Remove(a + b, key) == Remove(a, key) + Remove(b, key)
    decreases |a|
  {
    if a == [] {
      assert a + b == b;
    } else {
      assert (a + b)[1..] == a[1..] + b;
      RemoveSplit(a[1..], b, key);
    }
  }

  lemma {:induction false} RemoveNone(m: seq<Item>, key: Key)
    requires forall x :: x in m ==> x.key != key
    ensures Remove(m, key) == m
    decreases |m|
  {
    if m != [] {
      RemoveNone(m[1..], key);
    }
  }

  lemma {:induction false} RemoveObjectSplit(a: seq<Item>, b: seq<Item>, inst: nat)
    ensures RemoveObject(a + b, inst) == RemoveObject(a, inst) + RemoveObject(b, inst)
    decreases |a|
  {
    if a == [] {
      assert a + b == b;
    } else {
      assert (a + b)[1..] == a[1..] + b;
      RemoveObjectSplit(a[1..], b, inst);
    }
  }

  /** The slots around slot k. */
  lemma ItemsAround(slots: seq<Slot>, k: nat, s: Slot)
    requires k < |slots|
    ensures Items(slots[k := s]) == Items(slots[..k]) + Items([s]) + Items(slots[k + 1..])
    ensures Items([s]) == if s.fd == -1 then [] else [ItemOf(s)]
  {
    assert slots[k := s] == slots[..k] + [s] + slots[k + 1..];
    ItemsConcat(slots[..k] + [s], slots[k + 1..]);
    ItemsConcat(slots[..k], [s]);
    assert [s][..0] == [];
  }

  // ----- refinement

  /** A live key occurs in the items exactly once, at its slot. */
  lemma AroundKey(t: Table, k: nat)
    requires Ok(t) && k < |t.slots| && t.slots[k].fd != -1
    ensures forall x :: x in Items(t.slots[..k]) ==> x.key != ItemOf(t.slots[k]).key
    ensures forall x :: x in Items(t.slots[k + 1..]) ==> x.key != ItemOf(t.slots[k]).key
  {
    forall x | x in Items(t.slots[..k]) ensures x.key != ItemOf(t.slots[k]).key {
      ItemsOf(t.slots[..k], x);
      var i :| 0 <= i < k && t.slots[..k][i].fd != -1 && ItemOf(t.slots[..k][i]) == x;
      assert t.slots[i] == t.slots[..k][i];
    }
    forall x | x in Items(t.slots[k + 1..]) ensures x.key != ItemOf(t.slots[k]).key {
      ItemsOf(t.slots[k + 1..], x);
      var i :| 0 <= i < |t.slots| - k - 1 && t.slots[k + 1..][i].fd != -1 && ItemOf(t.slots[k + 1..][i]) == x;
      assert t.slots[k + 1 + i] == t.slots[k + 1..][i];
    }
  }

  lemma NoKey(t: Table, key: Key)
    requires key.fd != -1 && Find(t.slots, key.fd, key.ctxt, key.callBack) == |t.slots|
    ensures forall x :: x in Items(t.slots) ==> x.key != key
  {
    forall x | x in Items(t.slots) ensures x.key != key {
      ItemsOf(t.slots, x);
      var i :| 0 <= i < |t.slots| && t.slots[i].fd != -1 && ItemOf(t.slots[i]) == x;
      assert !Matches(t.slots[i], key.fd, key.ctxt, key.callBack);
    }
  }

  lemma PutAround(a: seq<Item>, was: Item, b: seq<Item>, item: Item)
    requires was.key == item.key && forall x :: x in a ==> x.key != item.key
    ensures Put(a + [was] + b, item) == a + [item] + b
  {
    var rest := [was] + b;
    assert a + [was] + b == a + rest;
    PutSplit(a, rest, item);
    assert rest[1..] == b;
    assert a + ([item] + b) == a + [item] + b;
  }

  lemma UpdateItems(t: Table, k: nat, events: bits)
    requires Ok(t) && k < |t.slots| && t.slots[k].fd != -1
    ensures var s := t.slots[k].(events := events);
            Items(t.slots[k := s]) == Put(Items(t.slots), ItemOf(s))
  {
    AroundKey(t, k);
    hide Ok, Items, Put;
    var s := t.slots[k].(events := events);
    ItemsAround(t.slots, k, s);
    ItemsAround(t.slots, k, t.slots[k]);
    assert t.slots[k := t.slots[k]] == t.slots;
    PutAround(Items(t.slots[..k]), ItemOf(t.slots[k]), Items(t.slots[k + 1..]), ItemOf(s));
  }

  lemma AppendItems(t: Table, s: Slot)
    requires s.fd != -1 && Find(t.slots, s.fd, s.ctxt, s.callBack) == |t.slots|
    ensures Items(t.slots + [s]) == Put(Items(t.slots), ItemOf(s))
  {
    NoKey(t, ItemOf(s).key);
    ItemsConcat(t.slots, [s]);
    assert [s][..0] == [];
    assert Items([s]) == [ItemOf(s)];
    PutSplit(Items(t.slots), [], ItemOf(s));
    assert Items(t.slots) + [] == Items(t.slots);
  }

  lemma TombstonesStay(t: Table, r: Table)
    requires |t.slots| <= |r.slots|
    requires forall i :: 0 <= i < |t.slots| ==> r.slots[i].fd == t.slots[i].fd
    requires forall i :: |t.slots| <= i < |r.slots| ==> r.slots[i].fd != -1
    ensures HasTombstone(r.slots) <==> HasTombstone(t.slots)
  {
    if HasTombstone(t.slots) {
      var i :| 0 <= i < |t.slots| && t.slots[i].fd == -1;
      assert r.slots[i].fd == -1;
    }
  }

  lemma RegisterOk(t: Table, sock: int, events: bits, inst: nat, callBack: nat, stale: bits)
    requires Ok(t) && sock >= 0
    ensures Ok(Register(t, sock, events, inst, callBack, stale))
  {
    hide Find;
    TombstonesStay(t, Register(t, sock, events, inst, callBack, stale));
  }

  /** register_sock puts the key in the ordered map. */
  lemma RegisterRefines(t: Table, sock: int, events: bits, inst: nat, callBack: nat, stale: bits)
    requires Ok(t) && sock >= 0
    ensures var r := Register(t, sock, events, inst, callBack, stale);
            Ok(r) && Items(r.slots) == Put(Items(t.slots), Item(Key(sock, inst, callBack), events))
  {
    RegisterOk(t, sock, events, inst, callBack, stale);
    hide Ok;
    var k := Find(t.slots, sock, inst, callBack);
    if k < |t.slots| {
      UpdateItems(t, k, events);
    } else {
      AppendItems(t, Slot(sock, events, stale, inst, callBack));
    }
  }

  lemma BuryItems(t: Table, k: nat)
    requires Ok(t) && k < |t.slots| && t.slots[k].fd != -1
    ensures Items(t.slots[k := Bury(t.slots[k])]) == Remove(Items(t.slots), ItemOf(t.slots[k]).key)
  {
    hide Ok;
    var key := ItemOf(t.slots[k]).key;
    AroundKey(t, k);
    ItemsAround(t.slots, k, Bury(t.slots[k]));
    ItemsAround(t.slots, k, t.slots[k]);
    assert t.slots[k := t.slots[k]] == t.slots;
    var a, b := Items(t.slots[..k]), Items(t.slots[k + 1..]);
    RemoveSplit(a + [ItemOf(t.slots[k])], b, key);
    RemoveSplit(a, [ItemOf(t.slots[k])], key);
    RemoveNone(a, key);
    RemoveNone(b, key);
    assert Remove([ItemOf(t.slots[k])], key) == [];
  }

  lemma UnregisterOk(t: Table, sock: int, inst: nat, callBack: nat)
    requires Ok(t)
    ensures Ok(Unregister(t, sock, inst, callBack))
  {
    hide Find;
    var k := Find(t.slots, sock, inst, callBack);
    if k < |t.slots| {
      assert Unregister(t, sock, inst, callBack).slots[k].fd == -1;
    }
  }

  lemma MinusOneAbsent(slots: seq<Slot>, key: Key)
    requires key.fd == -1
    ensures forall x :: x in Items(slots) ==> x.key != key
  {
    forall x | x in Items(slots) ensures x.key != key {
      ItemsOf(slots, x);
    }
  }

  /** unregister_sock removes the key, if it is there; it never matters that a tombstone may match descriptor -1. */
  lemma UnregisterRefines(t: Table, sock: int, inst: nat, callBack: nat)
    requires Ok(t)
    ensures var r := Unregister(t, sock, inst, callBack);
            Ok(r) && Items(r.slots) == Remove(Items(t.slots), Key(sock, inst, callBack))
  {
    UnregisterOk(t, sock, inst, callBack);
    hide Ok;
    var key := Key(sock, inst, callBack);
    var k := Find(t.slots, sock, inst, callBack);
    if sock == -1 {
      MinusOneAbsent(t.slots, key);
      RemoveNone(Items(t.slots), key);
      if k < |t.slots| {
        ItemsAround(t.slots, k, Bury(t.slots[k]));
        ItemsAround(t.slots, k, t.slots[k]);
        assert t.slots[k := t.slots[k]] == t.slots;
      }
    } else if k < |t.slots| {
      BuryItems(t, k);
    } else {
      NoKey(t, key);
      RemoveNone(Items(t.slots), key);
    }
  }

  lemma {:induction false} BuryAllItems(slots: seq<Slot>, inst: nat)
    ensures Items(BuryAll(slots, inst)) == RemoveObject(Items(slots), inst)
    ensures CountObject(slots, inst) > 0 <==> exists i :: 0 <= i < |slots| && slots[i].ctxt == inst
    decreases |slots|
  {
    if slots != [] {
      var n := |slots| - 1;
      BuryAllItems(slots[..n], inst);
      assert BuryAll(slots, inst)[..n] == BuryAll(slots[..n], inst);
      var last := if slots[n].fd == -1 then [] else [ItemOf(slots[n])];
      RemoveObjectSplit(Items(slots[..n]), last, inst);
      if i :| 0 <= i < |slots| && slots[i].ctxt == inst {
        assert i < n ==> slots[..n][i].ctxt == inst;
      }
      if CountObject(slots[..n], inst) > 0 {
        var i :| 0 <= i < n && slots[..n][i].ctxt == inst;
        assert slots[i].ctxt == inst;
      }
    }
  }

  /** unregister_object removes exactly one context's keys. */
  lemma UnregisterObjectRefines(t: Table, inst: nat)
    requires Ok(t)
    ensures var r := UnregisterObject(t, inst);
            Ok(r) && Items(r.slots) == RemoveObject(Items(t.slots), inst)
  {
    var r := UnregisterObject(t, inst);
    BuryAllItems(t.slots, inst);
    if HasTombstone(r.slots) && !HasTombstone(t.slots) {
      var i :| 0 <= i < |r.slots| && r.slots[i].fd == -1;
      assert t.slots[i].ctxt == inst;
    }
    if r.defrag > 0 {
      if t.defrag > 0 {
        var i :| 0 <= i < |t.slots| && t.slots[i].fd == -1;
        assert r.slots[i].fd == -1;
      } else {
        var i :| 0 <= i < |t.slots| && t.slots[i].ctxt == inst;
        assert r.slots[i].fd == -1;
      }
    }
  }

  lemma {:induction false} AliveItems(slots: seq<Slot>)
    ensures Items(Alive(slots)) == Items(slots)
    ensures forall s :: s in Alive(slots) ==> s in slots && s.fd != -1
    decreases |slots|
  {
    if slots != [] {
      var n := |slots| - 1;
      AliveItems(slots[..n]);
      var front := Alive(slots[..n]);
      if slots[n].fd == -1 {
        assert Alive(slots) == front && Items(slots) == Items(slots[..n]);
      } else {
        assert Alive(slots)[..|front|] == front;
      }
    }
  }

  lemma LiveSnoc(slots: seq<Slot>, s: Slot)
    requires LiveDistinct(slots) && forall i :: 0 <= i < |slots| ==> ItemOf(slots[i]).key != ItemOf(s).key
    ensures LiveDistinct(slots + [s])
  {
  }

  lemma {:induction false} AliveDistinct(slots: seq<Slot>)
    requires LiveDistinct(slots)
    ensures LiveDistinct(Alive(slots))
    decreases |slots|
  {
    hide Items;
    if slots != [] {
      var n := |slots| - 1;
      var front, last := slots[..n], slots[n];
      AliveDistinct(front);
      AliveItems(front);
      if last.fd != -1 {
        forall i | 0 <= i < |Alive(front)| ensures ItemOf(Alive(front)[i]).key != ItemOf(last).key {
          assert Alive(front)[i] in front;
          var j :| 0 <= j < n && front[j] == Alive(front)[i];
          assert slots[j] == front[j];
        }
        LiveSnoc(Alive(front), last);
      }
    }
  }

  lemma AliveOk(slots: seq<Slot>)
    requires LiveDistinct(slots) && forall i :: 0 <= i < |slots| ==> slots[i].fd >= -1
    ensures LiveDistinct(Alive(slots)) && !HasTombstone(Alive(slots))
    ensures forall i :: 0 <= i < |Alive(slots)| ==> Alive(slots)[i].fd >= -1
  {
    AliveItems(slots);
    AliveDistinct(slots);
    hide LiveDistinct, Items, Alive;
    forall i | 0 <= i < |Alive(slots)| ensures Alive(slots)[i].fd >= 0 {
      assert Alive(slots)[i] in slots;
    }
  }

  /** Compaction run when the counter is positive changes nothing that is registered and leaves no tombstone. */
  lemma DefragmentRefines(t: Table)
    requires Ok(t) && t.defrag > 0
    ensures var r := Defragment(t);
            Ok(r) && Items(r.slots) == Items(t.slots) && !HasTombstone(r.slots)
  {
    AliveItems(t.slots);
    AliveOk(t.slots);
    hide LiveDistinct, Items, Alive, HasTombstone;
  }

  /** The guard matters: on any table, compaction keeps the registrations iff there is a tombstone or no slot. */
  lemma DefragmentKeepsIff(t: Table)
    ensures Items(Defragment(t).slots) == Items(t.slots) <==> HasTombstone(t.slots) || t.slots == []
  {
    AliveItems(t.slots);
    if !HasTombstone(t.slots) && t.slots != [] {
      assert t.slots[|t.slots| - 1].fd != -1;
      assert Items(t.slots) != [];
    }
  }

  // ----- walking the table while callbacks change it

  datatype Op =
    | OpRegister(sock: int, events: bits, inst: nat, callBack: nat, stale: bits)
    | OpUnregister(sock: int, inst: nat, callBack: nat)
    | OpUnregisterObject(inst: nat)

  /** Registering a negative descriptor is no legal operation. */
  function Do(t: Table, op: Op): Table {
    match op
    case OpRegister(sock, events, inst, callBack, stale) =>
      if sock >= 0 then Register(t, sock, events, inst, callBack, stale) else t
    case OpUnregister(sock, inst, callBack) => Unregister(t, sock, inst, callBack)
    case OpUnregisterObject(inst) => UnregisterObject(t, inst)
  }

  function DoAll(t: Table, ops: seq<Op>): (r: Table)
    ensures |r.slots| >= |t.slots|
    decreases |ops|
  {
    if ops == [] then t else DoAll(Do(t, ops[0]), ops[1..])
  }

  /** The event mask handed to a callback. */
  function EventsOf(revents: bits): bits {
    (if revents & POLLIN != 0 || revents & POLLPRI != 0 then SOCKIN else 0)
    | (if revents & POLLOUT != 0 then SOCKOUT else 0)
    | (if revents & POLLERR != 0 || revents & POLLNVAL != 0 || revents & POLLHUP != 0 then SOCKERR else 0)
  }

  /** A call made by the dispatcher: the slot's number, its key, and the events. */
  datatype Call = Call(slot: nat, key: Key, events: bits)

  /** What the n-th callback of a pass does. */
  type Script = nat -> seq<Op>

  predicate Due(s: Slot) {
    s.revents != 0 && s.fd >= 0
  }

  /** The table after slot i was served. */
  function Served(t: Table, i: nat, ops: seq<Op>): (r: Table)
    requires i < |t.slots|
    ensures |r.slots| >= |t.slots|
  {
    var u := if EventsOf(t.slots[i].revents) != 0 then DoAll(t, ops) else t;
    u.(slots := u.slots[i := u.slots[i].(revents := 0)])
  }

  /** dispatch_sock_events from slot i on, when k callbacks have run: the table it leaves and the calls it makes. */
  function Dispatch(t: Table, i: nat, nevents: nat, script: Script, k: nat): (Table, seq<Call>)
    decreases nevents, |t.slots| - i
  {
    if i >= |t.slots| || nevents == 0 then (t, [])
    else if !Due(t.slots[i]) then Dispatch(t, i + 1, nevents, script, k)
    else
      var events := EventsOf(t.slots[i].revents);
      var u := Served(t, i, script(k));
      if events == 0 then Dispatch(u, i + 1, nevents - 1, script, k)
      else
        var rest := Dispatch(u, i + 1, nevents - 1, script, k + 1);
        (rest.0, [Call(i, ItemOf(t.slots[i]).key, events)] + rest.1)
  }

  /** Some operation registers the key. */
  ghost predicate Registers(ops: seq<Op>, key: Key) {
    exists i :: 0 <= i < |ops| && ops[i].OpRegister? && Key(ops[i].sock, ops[i].inst, ops[i].callBack) == key
  }

  /** Only registering it brings a key in. */
  lemma DoAbsent(t: Table, op: Op, key: Key)
    requires op.OpRegister? ==> Key(op.sock, op.inst, op.callBack) != key
    ensures Registered(Do(t, op), key) ==> Registered(t, key)
  {
    hide Find, BuryAll;
    var r := Do(t, op);
    if i :| 0 <= i < |r.slots| && r.slots[i].fd != -1 && ItemOf(r.slots[i]).key == key {
      assert i < |t.slots|;
      assert t.slots[i].fd != -1 && ItemOf(t.slots[i]).key == key;
    }
  }

  lemma {:induction false} DoAllAbsent(t: Table, ops: seq<Op>, key: Key)
    requires !Registered(t, key) && !Registers(ops, key)
    ensures !Registered(DoAll(t, ops), key)
    decreases |ops|
  {
    if ops != [] {
      assert ops[0].OpRegister? ==> Key(ops[0].sock, ops[0].inst, ops[0].callBack) != key;
      DoAbsent(t, ops[0], key);
      assert forall i :: 0 <= i < |ops[1..]| ==> ops[1..][i] == ops[i + 1];
      DoAllAbsent(Do(t, ops[0]), ops[1..], key);
    }
  }

  lemma ServedAbsent(t: Table, i: nat, ops: seq<Op>, key: Key)
    requires i < |t.slots| && !Registered(t, key) && !Registers(ops, key)
    ensures !Registered(Served(t, i, ops), key)
  {
    DoAllAbsent(t, ops, key);
    hide DoAll, EventsOf;
    var u := if EventsOf(t.slots[i].revents) != 0 then DoAll(t, ops) else t;
    var r := Served(t, i, ops);
    forall j | 0 <= j < |r.slots| && r.slots[j].fd != -1 ensures ItemOf(r.slots[j]).key != key {
      assert u.slots[j].fd != -1 && ItemOf(u.slots[j]).key == ItemOf(r.slots[j]).key;
    }
  }

  /**
   * Once a key is not registered - because an earlier callback of the pass took it out - the
   * rest of the pass does not call it, unless a later callback registers it again.
   */
  lemma {:induction false} NeverCallsUnregistered(t: Table, i: nat, nevents: nat, script: Script, k: nat, key: Key)
    requires !Registered(t, key)
    requires forall n :: n >= k ==> !Registers(script(n), key)
    ensures forall c :: c in Dispatch(t, i, nevents, script, k).1 ==> c.key != key
    decreases nevents, |t.slots| - i
  {
    hide EventsOf, Served, DoAll;
    if i < |t.slots| && nevents > 0 {
      if !Due(t.slots[i]) {
        NeverCallsUnregistered(t, i + 1, nevents, script, k, key);
      } else {
        ServedAbsent(t, i, script(k), key);
        var u := Served(t, i, script(k));
        if EventsOf(t.slots[i].revents) == 0 {
          NeverCallsUnregistered(u, i + 1, nevents - 1, script, k, key);
        } else {
          NeverCallsUnregistered(u, i + 1, nevents - 1, script, k + 1, key);
        }
      }
    }
  }

  /** And unregistering, by key or by context, does take keys out. */
  lemma UnregisteredIsAbsent(t: Table, sock: int, inst: nat, callBack: nat)
    requires Ok(t)
    ensures !Registered(Unregister(t, sock, inst, callBack), Key(sock, inst, callBack))
    ensures forall key: Key :: key.ctxt == inst ==> !Registered(UnregisterObject(t, inst), key)
  {
  }

  /** Slots are served in order, each at most once, and no more of them than events. */
  lemma {:induction false} CallsAscend(t: Table, i: nat, nevents: nat, script: Script, k: nat)
    ensures var calls := Dispatch(t, i, nevents, script, k).1;
            && |calls| <= nevents
            && (forall a :: 0 <= a < |calls| ==> calls[a].slot >= i)
            && (forall a, b :: 0 <= a < b < |calls| ==> calls[a].slot < calls[b].slot)
    decreases nevents, |t.slots| - i
  {
    hide EventsOf, Served, DoAll;
    if i < |t.slots| && nevents > 0 {
      if !Due(t.slots[i]) {
        CallsAscend(t, i + 1, nevents, script, k);
      } else {
        var u := Served(t, i, script(k));
        if EventsOf(t.slots[i].revents) == 0 {
          CallsAscend(u, i + 1, nevents - 1, script, k);
        } else {
          CallsAscend(u, i + 1, nevents - 1, script, k + 1);
        }
      }
    }
  }

  // ----- no ready slot is skipped

  /** Due slots in [i, j). */
  function CountDue(slots: seq<Slot>, i: nat, j: nat): nat
    requires i <= j <= |slots|
    decreases j - i
  {
    if i == j then 0 else (if Due(slots[i]) then 1 else 0) + CountDue(slots, i + 1, j)
  }

  lemma {:induction false} CountDueShrinks(a: seq<Slot>, b: seq<Slot>, i: nat, j: nat)
    requires i <= j <= |a| && j <= |b|
    requires forall x :: i <= x < j && Due(b[x]) ==> Due(a[x])
    ensures CountDue(b, i, j) <= CountDue(a, i, j)
    decreases j - i
  {
    if i < j {
      CountDueShrinks(a, b, i + 1, j);
    }
  }

  ghost predicate Hits(op: Op, key: Key) {
    || (op.OpUnregister? && Key(op.sock, op.inst, op.callBack) == key)
    || (op.OpUnregisterObject? && op.inst == key.ctxt)
  }

  /** Some operation takes out the key, by name or with its context. */
  ghost predicate Unregisters(ops: seq<Op>, key: Key) {
    exists i :: 0 <= i < |ops| && Hits(ops[i], key)
  }

  /** The old slots: none becomes due, and slot j keeps its identity and its poll result. */
  ghost predicate Undisturbed(t: Table, u: Table, j: nat) {
    && j < |t.slots| <= |u.slots|
    && (forall x :: 0 <= x < |t.slots| && Due(u.slots[x]) ==> Due(t.slots[x]))
    && ItemOf(u.slots[j]).key == ItemOf(t.slots[j]).key && u.slots[j].revents == t.slots[j].revents
  }

  lemma {:induction false} DoAllUndisturbed(t: Table, ops: seq<Op>, j: nat)
    requires j < |t.slots| && !Unregisters(ops, ItemOf(t.slots[j]).key)
    ensures Undisturbed(t, DoAll(t, ops), j)
    decreases |ops|
  {
    if ops != [] {
      var key := ItemOf(t.slots[j]).key;
      assert !Hits(ops[0], key);
      var u := Do(t, ops[0]);
      assert Undisturbed(t, u, j);
      assert forall i :: 0 <= i < |ops[1..]| ==> ops[1..][i] == ops[i + 1];
      DoAllUndisturbed(u, ops[1..], j);
    }
  }

  lemma {:induction false} SlotCalled(t: Table, i: nat, nevents: nat, script: Script, k: nat, j: nat)
    requires i <= j < |t.slots| && Due(t.slots[j]) && EventsOf(t.slots[j].revents) != 0
    requires nevents > CountDue(t.slots, i, j)
    requires forall n :: n >= k ==> !Unregisters(script(n), ItemOf(t.slots[j]).key)
    ensures Call(j, ItemOf(t.slots[j]).key, EventsOf(t.slots[j].revents)) in Dispatch(t, i, nevents, script, k).1
    decreases nevents, |t.slots| - i
  {
    hide EventsOf, DoAll, Unregisters;
    if i < j {
      if !Due(t.slots[i]) {
        SlotCalled(t, i + 1, nevents, script, k, j);
      } else {
        DoAllUndisturbed(t, script(k), j);
        var u := Served(t, i, script(k));
        assert Undisturbed(t, u, j);
        CountDueShrinks(t.slots, u.slots, i + 1, j);
        if EventsOf(t.slots[i].revents) == 0 {
          SlotCalled(u, i + 1, nevents - 1, script, k, j);
        } else {
          SlotCalled(u, i + 1, nevents - 1, script, k + 1, j);
        }
      }
    }
  }

  /**
   * What a callback is told of a poll result: 1 for readable or urgent data, 4 for writable, 8 for an
   * error, a hang-up or a descriptor that is not open, and nothing else.
   */
  predicate Reports(events: bits, revents: bits) {
    && (events & 0x01 != 0 <==> revents & 0x01 != 0 || revents & 0x02 != 0)
    && (events & 0x04 != 0 <==> revents & 0x04 != 0)
    && (events & 0x08 != 0 <==> revents & 0x08 != 0 || revents & 0x10 != 0 || revents & 0x20 != 0)
    && events & 0xf2 == 0
  }

  lemma EventsReport(revents: bits)
    ensures Reports(EventsOf(revents), revents)
    ensures EventsOf(revents) != 0 <==> revents & 0x3f != 0
  {
  }

  /**
   * A slot that poll marked is called, once, with its key and what poll found, provided the event
   * count covers the marked slots before it and no callback unregisters it.
   */
  lemma ReadySlotIsCalled(t: Table, nevents: nat, script: Script, j: nat) returns (n: nat)
    requires j < |t.slots| && t.slots[j].fd >= 0 && t.slots[j].revents & 0x3f != 0
    requires nevents > CountDue(t.slots, 0, j)
    requires forall n :: n >= 0 ==> !Unregisters(script(n), ItemOf(t.slots[j]).key)
    ensures var calls := Dispatch(t, 0, nevents, script, 0).1;
            && n < |calls| && calls[n].slot == j && calls[n].key == ItemOf(t.slots[j]).key
            && Reports(calls[n].events, t.slots[j].revents)
            && forall m :: 0 <= m < |calls| && m != n ==> calls[m].slot != j
  {
    var revents := t.slots[j].revents;
    EventsReport(revents);
    assert revents != 0;
    hide EventsOf, Reports, Dispatch, Unregisters;
    SlotCalled(t, 0, nevents, script, 0, j);
    CallsAscend(t, 0, nevents, script, 0);
    var calls := Dispatch(t, 0, nevents, script, 0).1;
    n :| 0 <= n < |calls| && calls[n] == Call(j, ItemOf(t.slots[j]).key, EventsOf(revents));
  }
}
