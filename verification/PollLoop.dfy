/**
 * The poll table as the program keeps it: two parallel arrays that grow by reallocation, a
 * count, and a counter of pending compactions.  Each function does to the arrays what
 * PollTable says of the table value.
 */
module PollLoop {
  import opened PollTable

  datatype PollFd = PollFd(fd: int, events: bits, revents: bits)
  datatype CallBack = CallBack(ctxt: nat, callBack: nat)

  lemma AliveNext(slots: seq<Slot>, i: nat)
    requires i < |slots|
    ensures Alive(slots[..i + 1]) == Alive(slots[..i]) + if slots[i].fd == -1 then [] else [slots[i]]
  {
    assert slots[..i + 1][..i] == slots[..i];
  }

  lemma {:induction false} AliveAll(slots: seq<Slot>)
    requires forall j :: 0 <= j < |slots| ==> slots[j].fd != -1
    ensures Alive(slots) == slots
    decreases |slots|
  {
    if slots != [] {
      AliveAll(slots[..|slots| - 1]);
    }
  }

  class PfdTable {
    var pfdList: array<PollFd>
    var pfdCallBacks: array<CallBack>
    var pfdSize: nat
    var pfdCount: nat
    var pfdDefrag: nat

    ghost predicate Valid()
      reads this
    {
      pfdList.Length == pfdSize && pfdCallBacks.Length == pfdSize && pfdCount <= pfdSize
      && pfdList as object != pfdCallBacks
    }

    function SlotAt(i: nat): (s: Slot)
      requires Valid() && i < pfdCount
      reads this, pfdList, pfdCallBacks
    {
      var p, c := pfdList[i], pfdCallBacks[i];
      Slot(p.fd, p.events, p.revents, c.ctxt, c.callBack)
    }

    ghost function View(): (t: Table)
      requires Valid()
      reads this, pfdList, pfdCallBacks
      ensures |t.slots| == pfdCount && t.defrag == pfdDefrag
      ensures forall i :: 0 <= i < pfdCount ==> t.slots[i] == SlotAt(i)
    {
      Table(seq(pfdCount, i requires 0 <= i < pfdCount && Valid() reads this, pfdList, pfdCallBacks => SlotAt(i)), pfdDefrag)
    }

    constructor ()
      ensures Valid() && View() == Table([], 0) && fresh(pfdList) && fresh(pfdCallBacks)
    {
      pfdList := new PollFd[0];
      pfdCallBacks := new CallBack[0];
      pfdSize, pfdCount, pfdDefrag := 0, 0, 0;
    }

    /** find_registered_sock: the index, or -1. */
    method FindRegistered(sock: int, inst: nat, callBack: nat) returns (i: int)
      requires Valid()
      ensures var k := Find(View().slots, sock, inst, callBack);
              i == if k < pfdCount then k else -1
    {
      hide Find;
      var n := 0;
      while n < pfdCount
        invariant 0 <= n <= pfdCount && n <= Find(View().slots, sock, inst, callBack)
      {
        assert View().slots[n] == SlotAt(n);
        if Matches(SlotAt(n), sock, inst, callBack) {
          return n;
        }
        n := n + 1;
      }
      return -1;
    }

    /** unregister_sock */
    method UnregisterSock(sock: int, inst: nat, callBack: nat)
      requires Valid()
      modifies this`pfdDefrag, pfdList
      ensures Valid() && View() == Unregister(old(View()), sock, inst, callBack)
    {
      hide Find;
      var i := FindRegistered(sock, inst, callBack);
      if i >= 0 {
        pfdList[i] := pfdList[i].(fd := -1, events := 0);
        pfdDefrag := pfdDefrag + 1;
      }
    }

    /** unregister_object, without the cancelling of the object's scheduled tasks. */
    method UnregisterObj(inst: nat)
      requires Valid()
      modifies this`pfdDefrag, pfdList
      ensures Valid() && View() == UnregisterObject(old(View()), inst)
    {
      hide BuryAll;
      ghost var slots := View().slots;
      assert slots[..0] == [];
      var i := 0;
      while i < pfdCount
        invariant 0 <= i <= pfdCount
        invariant forall j :: 0 <= j < pfdCount ==>
                    SlotAt(j) == if j < i && slots[j].ctxt == inst then Bury(slots[j]) else slots[j]
        invariant pfdDefrag == old(pfdDefrag) + CountObject(slots[..i], inst)
      {
        assert SlotAt(i) == slots[i];
        assert slots[..i + 1][..i] == slots[..i];
        if pfdCallBacks[i].ctxt == inst {
          pfdList[i] := pfdList[i].(fd := -1, events := 0);
          pfdDefrag := pfdDefrag + 1;
        }
        i := i + 1;
      }
      assert slots[..i] == slots;
    }

    /** The reallocation in register_sock: sixteen more rows, the old ones copied. */
    method Grow()
      requires Valid()
      modifies this`pfdList, this`pfdCallBacks, this`pfdSize
      ensures Valid() && pfdSize == old(pfdSize) + 16 && View() == old(View())
      ensures fresh(pfdList) && fresh(pfdCallBacks)
    {
      var size := pfdSize + 16;
      var pfds := new PollFd[size];
      var calls := new CallBack[size];
      forall i | 0 <= i < pfdCount {
        pfds[i] := pfdList[i];
      }
      forall i | 0 <= i < pfdCount {
        calls[i] := pfdCallBacks[i];
      }
      assert forall i :: 0 <= i < pfdCount ==> pfds[i] == pfdList[i] && calls[i] == pfdCallBacks[i];
      pfdList, pfdCallBacks, pfdSize := pfds, calls, size;
    }

    /** register_sock; `stale` stands for the revents the unused row happens to hold. */
    method RegisterSock(sock: int, events: bits, inst: nat, callBack: nat, stale: bits) returns (res: int)
      requires Valid()
      modifies this, pfdList, pfdCallBacks
      ensures Valid() && View() == Register(old(View()), sock, events, inst, callBack, stale)
      ensures var slots := old(View()).slots;
              var k := Find(slots, sock, inst, callBack);
              res == if k < |slots| then k else |slots| + 1
      ensures (pfdList == old(pfdList) || fresh(pfdList)) && (pfdCallBacks == old(pfdCallBacks) || fresh(pfdCallBacks))
    {
      hide Find;
      var i := FindRegistered(sock, inst, callBack);
      if i >= 0 {
        pfdList[i] := pfdList[i].(events := events);
        return i;
      }
      if pfdCount + 1 > pfdSize {
        Grow();
      }
      ghost var slots := View().slots;
      pfdList[pfdCount] := PollFd(sock, events, stale);
      pfdCallBacks[pfdCount] := CallBack(inst, callBack);
      pfdCount := pfdCount + 1;
      assert View().slots == slots + [Slot(sock, events, stale, inst, callBack)];
      res := pfdCount;
    }

    /** What a callback may do to the table. */
    method Perform(op: Op)
      requires Valid()
      modifies this, pfdList, pfdCallBacks
      ensures Valid() && View() == Do(old(View()), op)
      ensures (pfdList == old(pfdList) || fresh(pfdList)) && (pfdCallBacks == old(pfdCallBacks) || fresh(pfdCallBacks))
    {
      hide Register, Unregister, UnregisterObject;
      match op
      case OpRegister(sock, events, inst, callBack, stale) =>
        if sock >= 0 {
          var _ := RegisterSock(sock, events, inst, callBack, stale);
        }
      case OpUnregister(sock, inst, callBack) => UnregisterSock(sock, inst, callBack);
      case OpUnregisterObject(inst) => UnregisterObj(inst);
    }

    method PerformAll(ops: seq<Op>)
      requires Valid()
      modifies this, pfdList, pfdCallBacks
      ensures Valid() && View() == DoAll(old(View()), ops)
      ensures (pfdList == old(pfdList) || fresh(pfdList)) && (pfdCallBacks == old(pfdCallBacks) || fresh(pfdCallBacks))
      decreases |ops|
    {
      hide Do, Valid, View;
      if ops != [] {
        Perform(ops[0]);
        PerformAll(ops[1..]);
      }
    }

    /** The first loop of pfd_defragment: p is the first tombstone and i the row after it, or p is 0 and i the count. */
    method FirstTombstone() returns (i: nat, p: nat)
      requires Valid()
      ensures i <= pfdCount
      ensures if HasTombstone(View().slots) then i == p + 1 && Alive(View().slots[..i]) == View().slots[..p] else i == pfdCount && p == 0
    {
      ghost var slots := View().slots;
      i, p := 0, 0;
      while i < pfdCount
        invariant i <= pfdCount && p == 0
        invariant forall j :: 0 <= j < i ==> slots[j].fd != -1
      {
        assert SlotAt(i) == slots[i];
        if pfdList[i].fd == -1 {
          AliveAll(slots[..i]);
          AliveNext(slots, i);
          return i + 1, i;
        }
        i := i + 1;
      }
    }

    /** The first p rows are these. */
    ghost predicate Compacted(p: nat, rows: seq<Slot>)
      requires Valid()
      reads this, pfdList, pfdCallBacks
    {
      p == |rows| && p <= pfdCount && forall j :: 0 <= j < p ==> SlotAt(j) == rows[j]
    }

    /** pfd_defragment: rows move down over the tombstones, in place. */
    method DefragmentInPlace()
      requires Valid()
      modifies this`pfdCount, this`pfdDefrag, pfdList, pfdCallBacks
      ensures Valid() && View() == Defragment(old(View()))
    {
      hide Alive, HasTombstone;
      ghost var slots := View().slots;
      var i: nat, p: nat := FirstTombstone();
      while i < pfdCount
        invariant p <= i <= pfdCount == |slots|
        invariant if HasTombstone(slots) then p < i && Compacted(p, Alive(slots[..i])) else p == 0 && i == pfdCount
        invariant forall j :: i <= j < pfdCount ==> SlotAt(j) == slots[j]
      {
        AliveNext(slots, i);
        assert SlotAt(i) == slots[i];
        if pfdList[i].fd != -1 {
          pfdList[p] := pfdList[i];
          pfdCallBacks[p] := pfdCallBacks[i];
          p := p + 1;
        }
        i := i + 1;
      }
      assert slots[..i] == slots;
      pfdDefrag := 0;
      pfdCount := p;
    }

    /** The mask built for one callback. */
    static method Mask(revents: bits) returns (events: bits)
      ensures events == EventsOf(revents) && Reports(events, revents)
    {
      EventsReport(revents);
      events := 0;
      if revents & POLLIN != 0 || revents & POLLPRI != 0 {
        events := events | SOCKIN;
      }
      if revents & POLLOUT != 0 {
        events := events | SOCKOUT;
      }
      if revents & POLLERR != 0 {
        events := events | SOCKERR;
      }
      if revents & POLLNVAL != 0 {
        events := events | SOCKERR;
      }
      if revents & POLLHUP != 0 {
        events := events | SOCKERR;
      }
    }

    /** One due row: the callback - here, what it does to the table - and then the poll result cleared. */
    method Serve(i: nat, events: bits, ops: seq<Op>)
      requires Valid() && i < pfdCount && events == EventsOf(pfdList[i].revents)
      modifies this, pfdList, pfdCallBacks
      ensures Valid() && View() == Served(old(View()), i, ops)
      ensures (pfdList == old(pfdList) || fresh(pfdList)) && (pfdCallBacks == old(pfdCallBacks) || fresh(pfdCallBacks))
    {
      hide DoAll, EventsOf;
      ghost var t := View();
      assert t.slots[i] == SlotAt(i);
      if events != 0 {
        PerformAll(ops);
      }
      ghost var u := View();
      assert |u.slots| >= |t.slots| && u.slots[i] == SlotAt(i);
      pfdList[i] := pfdList[i].(revents := 0);
      assert View().slots == u.slots[i := u.slots[i].(revents := 0)];
    }

    /** dispatch_sock_events; the n-th callback does script(n), and the calls made are returned. */
    method DispatchEvents(nevents: nat, script: Script) returns (calls: seq<Call>)
      requires Valid()
      modifies this, pfdList, pfdCallBacks
      ensures Valid() && (View(), calls) == Dispatch(old(View()), 0, nevents, script, 0)
    {
      hide EventsOf, Served;
      ghost var all := Dispatch(View(), 0, nevents, script, 0);
      assert [] + all.1 == all.1;
      calls := [];
      var i: nat, left: nat, k: nat := 0, nevents, 0;
      while i < pfdCount && left > 0
        invariant Valid()
        invariant (pfdList == old(pfdList) || fresh(pfdList)) && (pfdCallBacks == old(pfdCallBacks) || fresh(pfdCallBacks))
        invariant var rest := Dispatch(View(), i, left, script, k);
                  all == (rest.0, calls + rest.1)
        decreases left, pfdCount - i
      {
        assert View().slots[i] == SlotAt(i);
        if pfdList[i].revents != 0 && pfdList[i].fd >= 0 {
          var events := Mask(pfdList[i].revents);
          var call := Call(i, Key(pfdList[i].fd, pfdCallBacks[i].ctxt, pfdCallBacks[i].callBack), events);
          Serve(i, events, script(k));
          left := left - 1;
          if events != 0 {
            ghost var rest := Dispatch(View(), i + 1, left, script, k + 1);
            assert calls + ([call] + rest.1) == (calls + [call]) + rest.1;
            calls, k := calls + [call], k + 1;
          }
        }
        i := i + 1;
      }
      assert calls + [] == calls;
    }
  }
}
