/**
 * The timer queue as the program keeps it: three singly linked lists of entries, changed
 * in place, and the lock flag of a running pass.  Every method is proved to do to the
 * lists what TimerQueue says of the queue value.
 */
module TimerLists {
  import opened TimerQueue
  import opened LinkedList

  /** timer_entry */
  type TimerEntry = Node<Entry>

  /** The loop of remove_timer: unlink a timer's first entry from the list that starts at head. */
  method Unlink(head: Node?<Entry>, t: nat, ghost s: seq<TimerEntry>) returns (head': Node?<Entry>, entry: Node?<Entry>)
    requires Chain(head, s) && NoDup(s)
    modifies s`next
    ensures var k := Find(old(Vals(s)), t);
            if k < |s| then entry == s[k] && Chain(head', Dropped(s, k)) && NoDup(Dropped(s, k))
                 && Vals(Dropped(s, k)) == Without(old(Vals(s)), k)
                 && (forall n :: n in Dropped(s, k) <==> n in s && n != entry)
            else entry == null && Chain(head', s) && Vals(s) == old(Vals(s))
  {
    hide Find;
    ghost var vals := Vals(s);
    ghost var k := Find(vals, t);
    ghost var i := 0;
    head', entry := head, head;
    var pp: Node?<Entry> := null;
    while entry != null
      invariant i <= k && i <= |s|
      invariant entry == if i < |s| then s[i] else null
      invariant pp == if i > 0 then s[i - 1] else null
      decreases |s| - i
    {
      assert Joined(s, i) && vals[i].timer == entry.val.timer;
      if entry.val.timer == t {
        assert k == i;
        head' := Bypass(head, pp, entry, s, k);
        return;
      }
      pp := entry;
      entry := pp.next;
      i := i + 1;
    }
  }

  lemma LockOk(q: Queue)
    requires Ok(q)
    ensures Ok(q.(locked := true))
  {
  }

  /** The outcome of a pass that has reached its k-th firing after `fired`. */
  ghost function LoopFrom(q: Queue, now: TimeVal, script: Script, k: nat, fired: seq<Entry>): (Queue, seq<Entry>)
    requires Ok(q) && q.locked
  {
    (Loop(q, now, script, k).0, fired + Loop(q, now, script, k).1)
  }

  lemma LoopStarts(q: Queue, now: TimeVal, script: Script)
    requires Ok(q) && q.locked
    ensures LoopFrom(q, now, script, 0, []) == Loop(q, now, script, 0)
  {
    hide Ok, Loop;
    var r := Loop(q, now, script, 0);
    assert [] + r.1 == r.1;
  }

  lemma LoopTurn(q: Queue, now: TimeVal, script: Script, k: nat, fired: seq<Entry>)
    requires Ok(q) && q.locked && Overdue(q, now)
    ensures q.armed[0].timer in q.intervals
    ensures Ok(Fire(q, script(k))) && Fire(q, script(k)).locked && |Fire(q, script(k)).armed| < |q.armed|
    ensures LoopFrom(q, now, script, k, fired)
         == LoopFrom(Fire(q, script(k)), now, script, k + 1, fired + [q.armed[0]])
  {
    hide Ok, Fire;
    FireOk(q, script(k));
    var rest := Loop(Fire(q, script(k)), now, script, k + 1);
    assert Loop(q, now, script, k) == (rest.0, [q.armed[0]] + rest.1);
    assert fired + ([q.armed[0]] + rest.1) == fired + [q.armed[0]] + rest.1;
  }

  lemma LoopEnds(q: Queue, now: TimeVal, script: Script, k: nat, fired: seq<Entry>)
    requires Ok(q) && q.locked && !Overdue(q, now)
    ensures LoopFrom(q, now, script, k, fired) == (q, fired)
  {
    assert fired + [] == fired;
  }

  lemma LiveFound(q: Queue, t: nat)
    ensures Live(q, t) <==> Find(q.armed, t) < |q.armed| || Find(q.pending, t) < |q.pending|
  {
    if Find(q.armed, t) < |q.armed| {
      assert q.armed[Find(q.armed, t)] in q.armed + q.pending;
    }
    if Find(q.pending, t) < |q.pending| {
      assert q.pending[Find(q.pending, t)] in q.armed + q.pending;
    }
  }

  class Timers {
    var timerList: Node?<Entry>
    var pendingList: Node?<Entry>
    var freeEntries: Node?<Entry>
    var lock: bool
    /** The timer structs that exist, with their intervals. */
    var intervals: map<nat, nat>

    ghost var armed: seq<TimerEntry>
    ghost var pending: seq<TimerEntry>
    ghost var free: seq<TimerEntry>

    /** Every entry ever allocated. */
    ghost function Nodes(): set<TimerEntry>
      reads this
    {
      (set n | n in armed) + (set n | n in pending) + (set n | n in free)
    }

    ghost predicate Disjoint()
      reads this
    {
      && (forall n :: n in armed ==> n !in pending && n !in free)
      && (forall n :: n in pending ==> n !in free)
    }

    /** The three lists are acyclic and share no entry. */
    ghost predicate Linked()
      reads this, Nodes()
    {
      && Chain(timerList, armed) && Chain(pendingList, pending) && Chain(freeEntries, free)
      && NoDup(armed) && NoDup(pending) && NoDup(free)
      && Disjoint()
    }

    ghost function View(): Queue
      reads this, Nodes()
    {
      Queue(Vals(armed), Vals(pending), |free|, lock, intervals)
    }

    /** The lists are in order and still hold every entry of `before`; any other entry is new. */
    twostate predicate Grown(before: set<TimerEntry>)
      reads this, Nodes()
    {
      Linked() && before <= Nodes() && forall n :: n in Nodes() && n !in before ==> fresh(n)
    }

    constructor ()
      ensures Linked() && View() == EMPTY && Nodes() == {}
    {
      timerList, pendingList, freeEntries, lock, intervals := null, null, null, false, map[];
      armed, pending, free := [], [], [];
    }

    /** The search of insert_timer: the entry to link after, or null for the front. */
    method Predecessor(due: TimeVal) returns (ep: Node?<Entry>)
      requires Chain(timerList, armed)
      ensures var k := Slot(Vals(armed), due);
              ep == if k == 0 then null else armed[k - 1]
    {
      hide Slot, TvCmp;
      ghost var vals := Vals(armed);
      ghost var k := Slot(vals, due);
      if timerList == null || TvCmp(due, timerList.val.due) < 0 {
        assert armed != [] ==> vals[0].due == timerList.val.due;
        return null;
      }
      ep := timerList;
      ghost var i := 0;
      assert vals[0].due == timerList.val.due;
      while ep.next != null
        invariant 0 <= i < |armed| && ep == armed[i]
        invariant i < k
        decreases |armed| - i
      {
        assert Joined(armed, i);
        assert vals[i + 1].due == armed[i + 1].val.due;
        if TvCmp(due, ep.next.val.due) < 0 {
          return;
        }
        ep := ep.next;
        i := i + 1;
      }
      assert Joined(armed, i);
    }

    /** insert_timer */
    method InsertTimer(entry: TimerEntry)
      requires Chain(timerList, armed) && NoDup(armed) && entry !in armed
      modifies this`timerList, this`armed, armed`next, entry`next
      ensures Chain(timerList, armed) && NoDup(armed)
      ensures Vals(armed) == Insert(old(Vals(armed)), entry.val)
      ensures forall n :: n in armed <==> n in old(armed) || n == entry
    {
      hide Slot, Chain, NoDup;
      ghost var vals := Vals(armed);
      ghost var k := Slot(vals, entry.val.due);
      var ep := Predecessor(entry.val.due);
      timerList := LinkAfter(timerList, ep, entry, armed, k);
      armed := Spliced(armed, k, entry);
      assert Vals(armed) == vals[..k] + [entry.val] + vals[k..];
    }

    /** An entry goes to the head of the free list. */
    method Discard(entry: TimerEntry)
      requires Linked() && entry !in Nodes()
      modifies this`freeEntries, this`free, entry`next
      ensures Linked() && free == [entry] + old(free) && Nodes() == old(Nodes()) + {entry}
      ensures View() == old(View()).(spare := old(|free|) + 1)
    {
      Push(freeEntries, entry, free);
      freeEntries := entry;
      free := [entry] + free;
    }

    /** First half of remove_timer: the armed list. */
    method UnlinkArmed(t: nat) returns (entry: Node?<Entry>)
      requires Linked()
      modifies this`timerList, this`armed, armed`next
      ensures Linked() && Vals(pending) == old(Vals(pending))
      ensures var k := Find(old(Vals(armed)), t);
              if k < |old(armed)|
              then entry == old(armed[k]) && Vals(armed) == Without(old(Vals(armed)), k) && armed == Dropped(old(armed), k)
              else entry == null && Vals(armed) == old(Vals(armed)) && armed == old(armed)
      ensures entry != null ==> forall n :: n in armed <==> n in old(armed) && n != entry
    {
      hide Find, Chain, NoDup, Dropped, Without, Vals, Joined;
      ghost var k := Find(Vals(armed), t);
      timerList, entry := Unlink(timerList, t, armed);
      assert forall n :: n in pending || n in free ==> n.next == old(n.next);
      if entry != null {
        armed := Dropped(armed, k);
      }
    }

    /** Second half of remove_timer: the pending list. */
    method UnlinkPending(t: nat) returns (entry: Node?<Entry>)
      requires Linked()
      modifies this`pendingList, this`pending, pending`next
      ensures Linked() && Vals(armed) == old(Vals(armed))
      ensures var k := Find(old(Vals(pending)), t);
              if k < |old(pending)|
              then entry == old(pending[k]) && Vals(pending) == Without(old(Vals(pending)), k) && pending == Dropped(old(pending), k)
              else entry == null && Vals(pending) == old(Vals(pending)) && pending == old(pending)
      ensures entry != null ==> forall n :: n in pending <==> n in old(pending) && n != entry
    {
      hide Find, Chain, NoDup, Dropped, Without, Vals, Joined;
      ghost var k := Find(Vals(pending), t);
      pendingList, entry := Unlink(pendingList, t, pending);
      assert forall n :: n in armed || n in free ==> n.next == old(n.next);
      if entry != null {
        pending := Dropped(pending, k);
      }
    }

    /** remove_timer: 0 when an entry was found, -1 otherwise. */
    method RemoveTimer(t: nat) returns (res: int)
      requires Linked()
      modifies this`timerList, this`pendingList, this`freeEntries, this`armed, this`pending, this`free, Nodes()`next
      ensures Linked() && Nodes() == old(Nodes())
      ensures View() == Remove(old(View()), t)
      ensures res == if Live(old(View()), t) then 0 else -1
    {
      hide Find, Chain, NoDup;
      LiveFound(View(), t);
      var entry := UnlinkArmed(t);
      if entry == null {
        entry := UnlinkPending(t);
      }
      if entry == null {
        return -1;
      }
      Discard(entry);
      res := 0;
    }

    /** An entry from the free list, or a newly allocated one. */
    method TakeEntry() returns (entry: TimerEntry)
      requires Linked()
      modifies this`freeEntries, this`free
      ensures Linked() && entry !in Nodes()
      ensures entry in old(free) || fresh(entry)
      ensures View() == Obtain(old(View()))
      ensures Nodes() + {entry} >= old(Nodes())
      ensures forall n :: n in Nodes() + {entry} && n !in old(Nodes()) ==> fresh(n)
    {
      ChainEmpty(freeEntries, free);
      hide Chain, NoDup, Vals;
      if freeEntries != null {
        ChainTail(freeEntries, free);
        entry := freeEntries;
        freeEntries := entry.next;
        free := free[1..];
      } else {
        entry := new Node(Entry(0, TimeVal(0, 0), 0));
      }
    }

    /** The entry is filled in for a timer. */
    method ObtainEntry(t: nat, repeat: int) returns (entry: TimerEntry)
      requires Linked()
      modifies this`freeEntries, this`free, free
      ensures Linked() && entry !in Nodes()
      ensures entry.val.timer == t && entry.val.repeat == repeat
      ensures View() == Obtain(old(View()))
      ensures Nodes() + {entry} >= old(Nodes())
      ensures forall n :: n in Nodes() + {entry} && n !in old(Nodes()) ==> fresh(n)
    {
      hide Linked, View, Nodes;
      entry := TakeEntry();
      entry.val := entry.val.(timer := t, repeat := repeat);
    }

    /** pend_timer */
    method PendTimer(entry: TimerEntry)
      requires Linked() && entry !in Nodes()
      modifies this`pendingList, this`pending, entry`next
      ensures Linked() && pending == [entry] + old(pending)
    {
      Push(pendingList, entry, pending);
      pendingList := entry;
      pending := [entry] + pending;
    }

    /** The common tail of add_timer and set_timeout: pend while a pass runs, insert otherwise. */
    method EnqueueEntry(entry: TimerEntry)
      requires Linked() && entry !in Nodes()
      modifies this`timerList, this`pendingList, this`armed, this`pending, armed`next, entry`next
      ensures Linked() && Nodes() == old(Nodes()) + {entry}
      ensures View() == Enqueue(old(View()), entry.val)
    {
      hide Insert, NoDup;
      if lock {
        ghost var vals := Vals(pending);
        PendTimer(entry);
        assert Vals(pending) == [entry.val] + vals;
      } else {
        InsertTimer(entry);
        assert forall n :: n in pending || n in free ==> n.next == old(n.next);
        assert Chain(pendingList, pending) by {
          forall i | 0 <= i < |pending| ensures Joined(pending, i) { assert old(Joined(pending, i)); }
        }
        assert Chain(freeEntries, free);
        assert Vals(pending) == old(Vals(pending));
      }
    }

    /** add_timer */
    method AddEntry(entry: TimerEntry, now: TimeVal)
      requires Linked() && entry !in Nodes() && entry.val.timer in intervals
      modifies this`timerList, this`pendingList, this`armed, this`pending, armed`next, entry`next, entry`val
      ensures Linked() && Nodes() == old(Nodes()) + {entry}
      ensures View() == AddTimer(old(View()), old(entry.val), now)
    {
      hide Insert;
      var tv := now;
      if tv.usec > MILLION || tv.usec < 0 {
        tv := TimeVal(tv.sec, 0);
      }
      var sec := intervals[entry.val.timer] / 1000;
      var usec := tv.usec + intervals[entry.val.timer] % 1000 * 1000;
      if usec > MILLION {
        usec := usec - MILLION;
        sec := sec + 1;
      }
      entry.val := entry.val.(due := TimeVal(tv.sec + sec, usec));
      assert entry.val.due == Due(now, intervals[entry.val.timer]);
      EnqueueEntry(entry);
    }

    method CreateTimer(t: nat, interval: nat)
      requires Linked() && t !in intervals
      modifies this`intervals
      ensures Linked() && Nodes() == old(Nodes())
      ensures View() == old(View()).(intervals := old(intervals)[t := interval])
    {
      intervals := intervals[t := interval];
    }

    method SetInterval(t: nat, interval: nat)
      requires Linked() && t in intervals
      modifies this`intervals
      ensures Linked() && Nodes() == old(Nodes())
      ensures View() == old(View()).(intervals := old(intervals)[t := interval])
    {
      intervals := intervals[t := interval];
    }

    method StartTimer(t: nat, repeat: int, now: TimeVal)
      requires Linked() && t in intervals
      modifies this, Nodes()
      ensures Grown(old(Nodes()))
      ensures View() == Start(old(View()), t, repeat, now)
    {
      hide Linked, View, Remove, Enqueue, Due, Obtain;
      var _ := RemoveTimer(t);
      var entry := ObtainEntry(t, repeat);
      AddEntry(entry, now);
    }

    /** set_timeout */
    method SetTimer(t: nat, due: TimeVal)
      requires Linked() && t in intervals
      modifies this, Nodes()
      ensures Grown(old(Nodes()))
      ensures View() == SetTimeout(old(View()), t, due)
    {
      hide Linked, View, Remove, Enqueue, Obtain;
      var _ := RemoveTimer(t);
      var entry := ObtainEntry(t, 1);
      entry.val := entry.val.(due := due);
      EnqueueEntry(entry);
    }

    /** stop_timer */
    method StopTimer(t: nat)
      requires Linked() && t in intervals
      modifies this, Nodes()
      ensures Grown(old(Nodes()))
      ensures View() == Remove(old(View()), t)
    {
      hide Linked, View, Remove;
      var _ := RemoveTimer(t);
    }

    /** free(timer) */
    method FreeTimer(t: nat)
      requires Linked()
      modifies this`intervals
      ensures Linked() && Nodes() == old(Nodes())
      ensures View() == old(View()).(intervals := old(intervals) - {t})
    {
      intervals := intervals - {t};
    }

    /** destroy_timer */
    method DestroyTimer(t: nat)
      requires Linked() && t in intervals
      modifies this, Nodes()
      ensures Grown(old(Nodes()))
      ensures View() == Do(old(View()), OpDestroy(t))
    {
      hide Linked, Remove, Nodes;
      assert View().intervals == intervals;
      var _ := RemoveTimer(t);
      FreeTimer(t);
    }

    /** One thing a client or a callback may do. */
    method Perform(op: Op)
      requires Linked()
      modifies this, Nodes()
      ensures Grown(old(Nodes()))
      ensures View() == Do(old(View()), op)
    {
      hide Linked, Remove, Start, SetTimeout, Nodes;
      if op.timer in intervals {
        match op {
          case OpCreate(_, _) =>
          case OpInterval(t, interval) => SetInterval(t, interval);
          case OpStart(t, repeat, now) => StartTimer(t, repeat, now);
          case OpTimeout(t, due) =>
            if Normal(due) {
              SetTimer(t, due);
            }
          case OpStop(t) => StopTimer(t);
          case OpDestroy(t) => DestroyTimer(t);
        }
      } else if op.OpCreate? {
        CreateTimer(op.timer, op.interval);
      }
    }

    /** What a callback does, operation by operation. */
    method PerformAll(ops: seq<Op>)
      requires Linked()
      modifies this, Nodes()
      ensures Grown(old(Nodes()))
      ensures View() == DoAll(old(View()), ops)
    {
      hide Linked, View, Do, Nodes;
      var i := 0;
      while i < |ops|
        invariant 0 <= i <= |ops|
        invariant Grown(old(Nodes()))
        invariant DoAll(View(), ops[i..]) == DoAll(old(View()), ops)
      {
        assert ops[i..][1..] == ops[i + 1..];
        Perform(ops[i]);
        i := i + 1;
      }
    }

    method TakeHead() returns (e: TimerEntry)
      requires Linked() && armed != []
      modifies this`timerList, this`armed
      ensures Linked() && e == old(armed[0]) && e !in Nodes() && Nodes() + {e} == old(Nodes())
      ensures View() == old(View()).(armed := old(View()).armed[1..])
    {
      hide Chain, NoDup, Vals;
      ChainTail(timerList, armed);
      e := timerList;
      timerList := e.next;
      armed := armed[1..];
    }

    /** The head entry leaves the list and is re-timed or freed (the loop body up to CALL). */
    method ExpireHead(now: TimeVal) returns (timer: nat)
      requires Linked() && armed != [] && armed[0].val.timer in intervals
      modifies this, Nodes()
      ensures Linked() && Nodes() == old(Nodes())
      ensures View() == Expire(old(View()), now) && timer == old(armed[0].val.timer)
    {
      hide Enqueue, Due;
      var e := TakeHead();
      timer := e.val.timer;
      e.val := e.val.(repeat := e.val.repeat - 1);
      if e.val.repeat != 0 {
        AddEntry(e, now);
      } else {
        Discard(e);
      }
    }

    /** One turn of the merge: the first pended entry moves to the armed list. */
    method InsertFirst(current: TimerEntry, ghost s: seq<TimerEntry>) returns (e: Node?<Entry>)
      requires Chain(timerList, armed) && NoDup(armed)
      requires Chain(current, s) && NoDup(s)
      requires forall n :: n in s ==> n !in armed
      modifies this`timerList, this`armed, armed`next, s`next
      ensures Chain(timerList, armed) && NoDup(armed)
      ensures s != [] && Chain(e, s[1..]) && NoDup(s[1..])
      ensures forall n :: n in s[1..] ==> n !in armed
      ensures forall n :: n in armed <==> n in old(armed) || n == current
      ensures Merge(Vals(armed), Vals(s[1..])) == Merge(old(Vals(armed)), old(Vals(s)))
    {
      hide Insert;
      ghost var vals := Vals(s);
      assert current == s[0] && Joined(s, 0);
      e := current.next;
      InsertTimer(current);
      ghost var rest := s[1..];
      assert Vals(rest) == vals[1..];
      forall i | 0 <= i < |rest| ensures Joined(rest, i) {
        assert old(Joined(s, i + 1));
        assert rest[i] == s[i + 1] && rest[i] in s && rest[i] != current;
        assert rest[i].next == old(s[i + 1].next);
      }
    }

    /** The loop that inserts the pended entries one by one. */
    method InsertAll(head: Node?<Entry>, ghost s: seq<TimerEntry>)
      requires Chain(timerList, armed) && NoDup(armed)
      requires Chain(head, s) && NoDup(s)
      requires forall n :: n in s ==> n !in armed
      modifies this`timerList, this`armed, armed`next, s`next
      ensures Chain(timerList, armed) && NoDup(armed)
      ensures forall n :: n in armed <==> n in old(armed) || n in s
      ensures Vals(armed) == Merge(old(Vals(armed)), old(Vals(s)))
    {
      hide NoDup, Insert;
      var e := head;
      ghost var rest := s;
      while e != null
        invariant Chain(timerList, armed) && NoDup(armed)
        invariant Chain(e, rest) && NoDup(rest)
        invariant forall n :: n in rest ==> n !in armed && n in s
        invariant forall n :: n in armed ==> n in old(armed) || n in s
        invariant forall n :: n in old(armed) ==> n in armed
        invariant forall n :: n in s ==> n in armed || n in rest
        invariant Merge(Vals(armed), Vals(rest)) == Merge(old(Vals(armed)), old(Vals(s)))
        decreases |rest|
      {
        assert forall i :: 0 <= i < |armed| ==> armed[i] in armed;
        assert forall i :: 0 <= i < |rest| ==> rest[i] in rest;
        e := InsertFirst(e, rest);
        rest := rest[1..];
      }
      assert rest == [];
    }

    method ClearPending()
      modifies this`pendingList, this`pending
      ensures pending == [] && Chain(pendingList, pending) && NoDup(pending)
    {
      pendingList := null;
      pending := [];
    }

    /** The end of a pass: the pended entries are armed and the list emptied. */
    method MergePending()
      requires Linked()
      modifies this`timerList, this`armed, this`pendingList, this`pending, Nodes()`next
      ensures Linked() && Nodes() == old(Nodes()) && pending == []
      ensures Vals(armed) == Merge(old(Vals(armed)), old(Vals(pending)))
    {
      hide NoDup, Chain, Vals, Merge, Joined;
      InsertAll(pendingList, pending);
      assert Chain(freeEntries, free) by {
        assert forall n :: n in free ==> n.next == old(n.next);
      }
      ClearPending();
      assert forall n :: n in armed ==> n !in free;
    }

    method SetLock(locked: bool)
      requires Linked()
      modifies this`lock
      ensures Linked() && Nodes() == old(Nodes())
      ensures View() == old(View()).(locked := locked)
    {
      lock := locked;
    }

    lemma HeadIsFirst()
      requires Linked()
      ensures timerList == null <==> armed == []
      ensures timerList != null ==> armed[0] == timerList && View().armed[0] == timerList.val
      ensures |View().armed| == |armed|
    {
    }

    /** The loop of timer_check_timeout: fire the head while it is due. */
    method FireDue(tv: TimeVal, script: Script) returns (fired: seq<Entry>)
      requires Linked() && Ok(View()) && lock
      modifies this, Nodes()
      ensures Grown(old(Nodes())) && Ok(View()) && lock
      ensures (View(), fired) == Loop(old(View()), tv, script, 0)
    {
      hide Linked, Ok, Nodes, Expire, DoAll, Loop;
      ghost var q := View();
      fired := [];
      var k := 0;
      while timerList != null && TvCmp(tv, timerList.val.due) >= 0
        invariant Grown(old(Nodes())) && Ok(View()) && lock
        invariant LoopFrom(q, tv, script, 0, []) == LoopFrom(View(), tv, script, k, fired)
        decreases |armed|
      {
        HeadIsFirst();
        ghost var now := View();
        LoopTurn(now, tv, script, k, fired);
        fired := fired + [timerList.val];
        var timer := ExpireHead(script(k).now);
        PerformAll(script(k).ops);
        assert View() == Fire(now, script(k));
        k := k + 1;
      }
      HeadIsFirst();
      LoopEnds(View(), tv, script, k, fired);
      LoopStarts(q, tv, script);
    }

    /** The first half of timer_check_timeout: the pass and the merge of the pended entries. */
    method RunPass(clock: TimeVal, script: Script) returns (fired: seq<Entry>)
      requires Linked() && Ok(View()) && !lock
      modifies this, Nodes()
      ensures Grown(old(Nodes())) && Ok(View()) && !lock
      ensures (View(), fired) == Pass(old(View()), clock, script)
    {
      hide Linked, Ok, Nodes;
      ghost var q := View();
      PassOk(q, clock, script);
      LockOk(q);
      var tv := clock;
      if tv.usec > MILLION || tv.usec < 0 {
        tv := TimeVal(tv.sec, 0);
      }
      SetLock(true);
      fired := FireDue(tv, script);
      SetLock(false);
      MergePending();
    }

    /** timer_check_timeout: the pass, then the poll delay; `clock` and `later` are its two clock readings. */
    method CheckTimeout(clock: TimeVal, later: TimeVal, script: Script) returns (timeout: int, fired: seq<Entry>)
      requires Linked() && Ok(View()) && !lock
      modifies this, Nodes()
      ensures Grown(old(Nodes())) && Ok(View()) && !lock
      ensures (View(), fired) == Pass(old(View()), clock, script)
      ensures timeout == Delay(View(), later)
      ensures timeout == -1 <==> armed == []
      ensures armed != [] ==>
                var left := Micros(armed[0].val.due) - Micros(Sane(later));
                timeout == if left < 0 then 0 else left / 1000
    {
      hide Linked, Ok, Nodes, TvCmp, Pass;
      fired := RunPass(clock, script);
      HeadIsFirst();
      DelayMeans(View(), later);
      if timerList == null {
        return -1, fired;
      }
      var tv := later;
      if tv.usec > MILLION || tv.usec < 0 {
        tv := TimeVal(tv.sec, 0);
      }
      tv := TvSub(timerList.val.due, tv);
      timeout := tv.sec * 1000 + Div1000(tv.usec);
      if timeout < 0 {
        timeout := 0;
      }
    }
  }
}
