/** Which entries a queue holds and which timers are live in it, operation by operation. */
module TimerLive {
  import opened TimerQueue

  /** The entry is armed or pended. */
  ghost predicate Holds(q: Queue, e: Entry) {
    e in q.armed || e in q.pending
  }

  lemma RemoveHolds(q: Queue, t: nat, e: Entry)
    requires Holds(q, e) && e.timer != t
    ensures Holds(Remove(q, t), e)
  {
    if e in q.armed && Find(q.armed, t) < |q.armed| {
      RemoveKeeps(q.armed, t, e);
    } else if e in q.pending && Find(q.pending, t) < |q.pending| {
      RemoveKeeps(q.pending, t, e);
    }
  }

  lemma InsertHolds(s: seq<Entry>, x: Entry, e: Entry)
    requires e in s || e == x
    ensures e in Insert(s, x)
  {
    var k := Slot(s, x.due);
    if e == x {
      assert Insert(s, x)[k] == e;
    } else {
      var i :| 0 <= i < |s| && s[i] == e;
      assert Insert(s, x)[if i < k then i else i + 1] == e;
    }
  }

  lemma EnqueueHolds(q: Queue, x: Entry, e: Entry)
    requires Holds(q, e) || x == e
    ensures Holds(Enqueue(q, x), e)
  {
    if !q.locked && (e in q.armed || e == x) {
      InsertHolds(q.armed, x, e);
    }
  }

  lemma RemoveIntervals(q: Queue, t: nat)
    ensures Remove(q, t).intervals == q.intervals
  {
  }

  /** An operation on one timer leaves the entries of the others. */
  lemma DoHolds(q: Queue, op: Op, e: Entry)
    requires Holds(q, e) && op.timer != e.timer
    ensures Holds(Do(q, op), e)
  {
    hide Remove, Enqueue, Due;
    if Legal(q, op) {
      RemoveHolds(q, op.timer, e);
      RemoveIntervals(q, op.timer);
      var r := Obtain(Remove(q, op.timer));
      match op {
        case OpStart(x, repeat, now) => EnqueueHolds(r, Entry(x, Due(now, r.intervals[x]), repeat), e);
        case OpTimeout(x, due) => EnqueueHolds(r, Entry(x, due, 1), e);
        case _ =>
      }
    }
  }

  /** A started timer has the entry it was started with. */
  lemma StartHolds(q: Queue, t: nat, repeat: int, now: TimeVal)
    requires t in q.intervals
    ensures Holds(Do(q, OpStart(t, repeat, now)), Entry(t, Due(now, q.intervals[t]), repeat))
  {
    hide Remove, Enqueue, Due;
    RemoveIntervals(q, t);
    var e := Entry(t, Due(now, q.intervals[t]), repeat);
    EnqueueHolds(Obtain(Remove(q, t)), e, e);
  }

  /** set_timeout: the timer's entry is due at the given time and fires once. */
  lemma TimeoutHolds(q: Queue, t: nat, due: TimeVal)
    requires t in q.intervals && Normal(due)
    ensures Holds(Do(q, OpTimeout(t, due)), Entry(t, due, 1))
  {
    hide Remove, Enqueue;
    RemoveIntervals(q, t);
    EnqueueHolds(Obtain(Remove(q, t)), Entry(t, due, 1), Entry(t, due, 1));
  }

  /** After its last repetition a timer has no entry. */
  lemma LastExpiry(q: Queue, now: TimeVal)
    requires Ok(q) && q.armed != [] && q.armed[0].timer in q.intervals && q.armed[0].repeat == 1
    ensures !Live(Expire(q, now), q.armed[0].timer)
  {
    var all, r := q.armed + q.pending, Expire(q, now);
    forall e | e in r.armed + r.pending ensures e.timer != q.armed[0].timer {
      var i :| 0 <= i < |r.armed + r.pending| && (r.armed + r.pending)[i] == e;
      assert all[i + 1] == e && all[0] == q.armed[0];
    }
    hide Sorted, AllNormal;
  }

  /** A new interval counts from the next start or repetition on: the entries stay. */
  lemma IntervalSet(q: Queue, t: nat, interval: nat)
    requires t in q.intervals
    ensures var r := Do(q, OpInterval(t, interval));
            && r.armed == q.armed && r.pending == q.pending
            && r.intervals.Keys == q.intervals.Keys && r.intervals[t] == interval
  {
  }

  /** An expiry leaves every entry but the head ... */
  lemma ExpireHolds(q: Queue, now: TimeVal, e: Entry)
    requires q.armed != [] && q.armed[0].timer in q.intervals && Holds(q, e) && e != q.armed[0]
    ensures Holds(Expire(q, now), e)
  {
    hide Enqueue, Due;
    var head, r := q.armed[0], q.(armed := q.armed[1..]);
    assert Holds(r, e);
    EnqueueHolds(r, Entry(head.timer, Due(now, q.intervals[head.timer]), head.repeat - 1), e);
  }

  /** ... which is re-timed while its repeat count lasts. */
  lemma ExpireRepeats(q: Queue, now: TimeVal)
    requires q.armed != [] && q.armed[0].timer in q.intervals && q.armed[0].repeat != 1
    ensures var head := q.armed[0];
            Holds(Expire(q, now), Entry(head.timer, Due(now, q.intervals[head.timer]), head.repeat - 1))
  {
    hide Enqueue, Due;
    var head, r := q.armed[0], q.(armed := q.armed[1..]);
    var e := Entry(head.timer, Due(now, q.intervals[head.timer]), head.repeat - 1);
    EnqueueHolds(r, e, e);
  }

  lemma {:induction false} MergeHolds(armed: seq<Entry>, pending: seq<Entry>, e: Entry)
    requires e in armed || e in pending
    ensures e in Merge(armed, pending)
    decreases |pending|
  {
    if pending != [] {
      if e !in pending[1..] {
        InsertHolds(armed, pending[0], e);
      }
      MergeHolds(Insert(armed, pending[0]), pending[1..], e);
    }
  }

  /** The end of a pass leaves every entry. */
  lemma FinishHolds(q: Queue, e: Entry)
    requires Holds(q, e)
    ensures Holds(Finish(q), e)
  {
    MergeHolds(q.armed, q.pending, e);
  }

  // ----- live timers

  lemma LiveEntry(q: Queue, t: nat) returns (e: Entry)
    requires Live(q, t)
    ensures Holds(q, e) && e.timer == t
  {
    e :| e in q.armed + q.pending && e.timer == t;
  }

  lemma HoldsLive(q: Queue, e: Entry)
    requires Holds(q, e)
    ensures Live(q, e.timer)
  {
    assert e in q.armed + q.pending;
  }

  /** An operation on one timer leaves every other one live that was. */
  lemma DoLive(q: Queue, op: Op, t: nat)
    requires Live(q, t) && op.timer != t
    ensures Live(Do(q, op), t)
  {
    hide Do, Live;
    var e := LiveEntry(q, t);
    DoHolds(q, op, e);
    HoldsLive(Do(q, op), e);
  }

  /** A started timer is live. */
  lemma StartLive(q: Queue, t: nat, repeat: int, now: TimeVal)
    requires t in q.intervals
    ensures Live(Do(q, OpStart(t, repeat, now)), t)
  {
    hide Do, Live, Due;
    StartHolds(q, t, repeat, now);
    HoldsLive(Do(q, OpStart(t, repeat, now)), Entry(t, Due(now, q.intervals[t]), repeat));
  }

  /** An expiry takes no other timer's entry. */
  lemma ExpireLive(q: Queue, now: TimeVal, t: nat)
    requires q.armed != [] && q.armed[0].timer in q.intervals && Live(q, t) && q.armed[0].timer != t
    ensures Live(Expire(q, now), t)
  {
    hide Expire, Live;
    var e := LiveEntry(q, t);
    ExpireHolds(q, now, e);
    HoldsLive(Expire(q, now), e);
  }

  /** Nor does the end of a pass. */
  lemma FinishLive(q: Queue, t: nat)
    requires Live(q, t)
    ensures Live(Finish(q), t)
  {
    hide Finish, Live;
    var e := LiveEntry(q, t);
    FinishHolds(q, e);
    HoldsLive(Finish(q), e);
  }

  // ----- timers that exist

  lemma DoIntervals(q: Queue, op: Op)
    ensures op.OpStart? || op.OpStop? || op.OpTimeout? ==> Do(q, op).intervals == q.intervals
    ensures op.OpDestroy? ==> Do(q, op).intervals == q.intervals - {op.timer}
    ensures op.OpCreate? && op.timer !in q.intervals ==> Do(q, op).intervals == q.intervals[op.timer := op.interval]
    ensures forall t :: t != op.timer ==> (t in Do(q, op).intervals <==> t in q.intervals)
    ensures forall t :: t != op.timer && t in q.intervals ==> Do(q, op).intervals[t] == q.intervals[t]
  {
    hide Find;
  }
}
