/**
 * The timer queue as a value: an ordered list of armed entries, a list of entries pended
 * while a pass runs, and the number of entries on the free list.
 *
 * Timers are named by numbers; `intervals` holds the timer structs that exist.  What a
 * callback does is a list of operations, each with the clock reading it makes, so a pass
 * is followed for every possible behaviour of its callbacks.
 */
module TimerQueue {
  datatype TimeVal = TimeVal(sec: int, usec: int)

  const MILLION := 1000000

  predicate Normal(t: TimeVal) {
    0 <= t.usec <= MILLION
  }

  function Micros(t: TimeVal): int {
    t.sec * MILLION + t.usec
  }

  /** C division: truncation toward zero. */
  function Div1000(n: int): int {
    if n >= 0 then n / 1000 else -(-n / 1000)
  }

  function TvCmp(a: TimeVal, b: TimeVal): int {
    (a.sec - b.sec) * 1000 + Div1000(a.usec - b.usec)
  }

  function TvSub(a: TimeVal, b: TimeVal): TimeVal {
    var usec := a.usec - b.usec;
    if usec < 0 then TimeVal(a.sec - 1 - b.sec, usec + MILLION) else TimeVal(a.sec - b.sec, usec)
  }

  /** The clock reading after the range check on its microseconds. */
  function Sane(t: TimeVal): (r: TimeVal)
    ensures Normal(r)
    ensures Micros(r) == if 0 <= t.usec <= 1_000_000 then Micros(t) else t.sec * 1_000_000
  {
    if t.usec > MILLION || t.usec < 0 then TimeVal(t.sec, 0) else t
  }

  // ----- the comparison is a semiorder

  lemma TvCmpOdd(a: TimeVal, b: TimeVal)
    ensures TvCmp(a, b) == -TvCmp(b, a)
  {
  }

  /** The comparison is within one millisecond of the clock. */
  lemma TvCmpBounds(a: TimeVal, b: TimeVal)
    requires Normal(a) && Normal(b)
    ensures TvCmp(a, b) >= 0 ==> Micros(a) - Micros(b) > -1000
    ensures TvCmp(a, b) <= 0 ==> Micros(a) - Micros(b) < 1000
    ensures TvCmp(a, b) > 0 ==> Micros(a) > Micros(b)
    ensures TvCmp(a, b) < 0 ==> Micros(a) < Micros(b)
  {
  }

  /** Ties do not chain: at every time, equality under the comparison is not transitive. */
  lemma TiesDoNotChain(sec: int)
    ensures TvCmp(TimeVal(sec, 0), TimeVal(sec, 900)) == 0
    ensures TvCmp(TimeVal(sec, 900), TimeVal(sec, 1800)) == 0
    ensures TvCmp(TimeVal(sec, 0), TimeVal(sec, 1800)) == -1
  {
  }

  /** But a strict step absorbs a tie, which is what insertion needs. */
  lemma StrictThenTie(a: TimeVal, b: TimeVal, c: TimeVal)
    requires Normal(a) && Normal(b) && Normal(c)
    requires TvCmp(a, b) < 0 && TvCmp(b, c) <= 0
    ensures TvCmp(a, c) <= 0
  {
    var ab, bc, ac := Div1000(a.usec - b.usec), Div1000(b.usec - c.usec), Div1000(a.usec - c.usec);
    var p, q := b.sec - a.sec, c.sec - b.sec;
    assert ab < p * 1000 && bc <= q * 1000;
    assert -1000 <= ab <= 1000 && -1000 <= bc <= 1000 && -1000 <= ac <= 1000;
  }

  // ----- entries and lists

  datatype Entry = Entry(timer: nat, due: TimeVal, repeat: int)

  ghost predicate Sorted(s: seq<Entry>) {
    forall i, j :: 0 <= i < j < |s| ==> TvCmp(s[i].due, s[j].due) <= 0
  }

  ghost predicate AllNormal(s: seq<Entry>) {
    forall i :: 0 <= i < |s| ==> Normal(s[i].due)
  }

  /** Where insert_timer links an entry: before the first strictly later one. */
  function Slot(s: seq<Entry>, due: TimeVal): (k: nat)
    ensures k <= |s|
    ensures forall i :: 0 <= i < k ==> TvCmp(due, s[i].due) >= 0
    ensures k < |s| ==> TvCmp(due, s[k].due) < 0
  {
    if s == [] || TvCmp(due, s[0].due) < 0 then 0 else 1 + Slot(s[1..], due)
  }

  function Insert(s: seq<Entry>, e: Entry): seq<Entry> {
    var k := Slot(s, e.due);
    s[..k] + [e] + s[k..]
  }

  /** Insertion keeps every pair in order although the order is not transitive. */
  lemma InsertSorted(s: seq<Entry>, e: Entry)
    requires Sorted(s) && AllNormal(s) && Normal(e.due)
    ensures Sorted(Insert(s, e)) && AllNormal(Insert(s, e))
  {
    var k := Slot(s, e.due);
    var r := Insert(s, e);
    forall i, j | 0 <= i < j < |r|
      ensures TvCmp(r[i].due, r[j].due) <= 0
    {
      if j == k {
        TvCmpOdd(e.due, s[i].due);
      } else if i == k && j - 1 > k {
        StrictThenTie(e.due, s[k].due, s[j - 1].due);
      }
    }
  }

  // ----- the queue and its operations

  datatype Queue = Queue(armed: seq<Entry>, pending: seq<Entry>, spare: nat, locked: bool, intervals: map<nat, nat>)

  const EMPTY := Queue([], [], 0, false, map[])

  /** The position of the first entry of a timer, or |s|. */
  function Find(s: seq<Entry>, t: nat): (k: nat)
    ensures k <= |s|
    ensures forall i :: 0 <= i < k ==> s[i].timer != t
    ensures k < |s| ==> s[k].timer == t
  {
    if s == [] || s[0].timer == t then 0 else 1 + Find(s[1..], t)
  }

  function Without(s: seq<Entry>, k: nat): (r: seq<Entry>)
    requires k < |s|
  {
    s[..k] + s[k + 1..]
  }

  /** remove_timer: unlink the timer's entry, if any, and put it on the free list. */
  function Remove(q: Queue, t: nat): Queue {
    var i := Find(q.armed, t);
    var j := Find(q.pending, t);
    if i < |q.armed| then q.(armed := Without(q.armed, i), spare := q.spare + 1)
    else if j < |q.pending| then q.(pending := Without(q.pending, j), spare := q.spare + 1)
    else q
  }

  /** An entry taken from the free list, or a new one. */
  function Obtain(q: Queue): Queue {
    q.(spare := if q.spare > 0 then q.spare - 1 else 0)
  }

  /** A timed entry is pended while a pass runs, inserted otherwise. */
  function Enqueue(q: Queue, e: Entry): Queue {
    if q.locked then q.(pending := [e] + q.pending) else q.(armed := Insert(q.armed, e))
  }

  /** When an interval counted from a clock reading ends (add_timer). */
  function Due(now: TimeVal, interval: nat): (due: TimeVal)
    ensures Normal(due)
    ensures Micros(due) == Micros(Sane(now)) + interval * 1000
  {
    var tv := Sane(now);
    var usec := tv.usec + interval % 1000 * 1000;
    if usec > MILLION then TimeVal(tv.sec + interval / 1000 + 1, usec - MILLION)
    else TimeVal(tv.sec + interval / 1000, usec)
  }

  function AddTimer(q: Queue, e: Entry, now: TimeVal): Queue
    requires e.timer in q.intervals
  {
    Enqueue(q, e.(due := Due(now, q.intervals[e.timer])))
  }

  function Start(q: Queue, t: nat, repeat: int, now: TimeVal): Queue
    requires t in q.intervals
  {
    AddTimer(Obtain(Remove(q, t)), Entry(t, TimeVal(0, 0), repeat), now)
  }

  function SetTimeout(q: Queue, t: nat, due: TimeVal): Queue {
    Enqueue(Obtain(Remove(q, t)), Entry(t, due, 1))
  }

  datatype Op =
    | OpCreate(timer: nat, interval: nat)
    | OpInterval(timer: nat, interval: nat)
    | OpStart(timer: nat, repeat: int, now: TimeVal)
    | OpTimeout(timer: nat, due: TimeVal)
    | OpStop(timer: nat)
    | OpDestroy(timer: nat)

  /** What the caller owes: timers are used between creation and destruction only. */
  predicate Legal(q: Queue, op: Op) {
    && (op.timer in q.intervals <==> !op.OpCreate?)
    && (op.OpTimeout? ==> Normal(op.due))
  }

  function Do(q: Queue, op: Op): Queue {
    if !Legal(q, op) then q else
    match op
    case OpCreate(t, interval) => q.(intervals := q.intervals[t := interval])
    case OpInterval(t, interval) => q.(intervals := q.intervals[t := interval])
    case OpStart(t, repeat, now) => Start(q, t, repeat, now)
    case OpTimeout(t, due) => SetTimeout(q, t, due)
    case OpStop(t) => Remove(q, t)
    case OpDestroy(t) => Remove(q, t).(intervals := q.intervals - {t})
  }

  function DoAll(q: Queue, ops: seq<Op>): Queue
    decreases |ops|
  {
    if ops == [] then q else DoAll(Do(q, ops[0]), ops[1..])
  }

  // ----- well-formed queues

  ghost predicate Distinct(s: seq<Entry>) {
    forall i, j :: 0 <= i < j < |s| ==> s[i].timer != s[j].timer
  }

  /** Every entry's timer exists, and no timer has two live entries. */
  ghost predicate Ok(q: Queue) {
    && Sorted(q.armed) && AllNormal(q.armed) && AllNormal(q.pending)
    && Distinct(q.armed + q.pending)
    && (forall e :: e in q.armed + q.pending ==> e.timer in q.intervals)
    && (!q.locked ==> q.pending == [])
  }

  ghost predicate Live(q: Queue, t: nat) {
    exists e :: e in q.armed + q.pending && e.timer == t
  }

  lemma WithoutOk(s: seq<Entry>, k: nat)
    requires k < |s| && Distinct(s)
    ensures Distinct(Without(s, k))
    ensures Sorted(s) ==> Sorted(Without(s, k))
    ensures forall e :: e in Without(s, k) ==> e in s && e.timer != s[k].timer
  {
  }

  lemma WithoutNormal(s: seq<Entry>, k: nat)
    requires k < |s| && AllNormal(s)
    ensures AllNormal(Without(s, k))
  {
  }

  lemma DistinctPart(a: seq<Entry>, b: seq<Entry>)
    requires Distinct(a + b)
    ensures Distinct(a)
  {
    assert forall m :: 0 <= m < |a| ==> (a + b)[m] == a[m];
  }

  lemma RemoveArmed(q: Queue, i: nat)
    requires Ok(q) && i < |q.armed|
    ensures var r := q.(armed := Without(q.armed, i), spare := q.spare + 1);
            Ok(r) && !Live(r, q.armed[i].timer)
  {
    var s := q.armed + q.pending;
    assert Without(q.armed, i) + q.pending == Without(s, i) && s[i] == q.armed[i];
    WithoutOk(s, i);
    DistinctPart(q.armed, q.pending);
    WithoutOk(q.armed, i);
    WithoutNormal(q.armed, i);
    hide Sorted, AllNormal, Distinct, Without;
  }

  lemma RemovePending(q: Queue, j: nat)
    requires Ok(q) && j < |q.pending|
    ensures var r := q.(pending := Without(q.pending, j), spare := q.spare + 1);
            Ok(r) && !Live(r, q.pending[j].timer)
  {
    var s, k := q.armed + q.pending, |q.armed| + j;
    assert q.armed + Without(q.pending, j) == Without(s, k) && s[k] == q.pending[j];
    WithoutOk(s, k);
    WithoutNormal(q.pending, j);
    hide Sorted, AllNormal, Distinct, Without;
  }

  lemma RemoveOk(q: Queue, t: nat)
    requires Ok(q)
    ensures Ok(Remove(q, t)) && !Live(Remove(q, t), t)
    ensures Remove(q, t).locked == q.locked && Remove(q, t).intervals == q.intervals
  {
    var i, j := Find(q.armed, t), Find(q.pending, t);
    if i < |q.armed| {
      RemoveArmed(q, i);
      hide Ok, Live;
    } else if j < |q.pending| {
      RemovePending(q, j);
      hide Ok, Live;
    } else {
      hide Ok;
      forall e | e in q.armed + q.pending ensures e.timer != t {
        assert e in q.armed || e in q.pending;
      }
    }
  }

  lemma InsertionDistinct(s: seq<Entry>, k: nat, e: Entry)
    requires k <= |s| && Distinct(s)
    requires forall x :: x in s ==> x.timer != e.timer
    ensures Distinct(s[..k] + [e] + s[k..])
    ensures forall x :: x in s[..k] + [e] + s[k..] ==> x in s || x == e
  {
  }

  lemma EnqueueOk(q: Queue, e: Entry)
    requires Ok(q) && !Live(q, e.timer) && e.timer in q.intervals && Normal(e.due)
    ensures Ok(Enqueue(q, e)) && Enqueue(q, e).locked == q.locked
  {
    var r := Enqueue(q, e);
    if q.locked {
      assert r.armed + r.pending == q.armed + [e] + q.pending;
      InsertionDistinct(q.armed + q.pending, |q.armed|, e);
    } else {
      InsertSorted(q.armed, e);
      var k := Slot(q.armed, e.due);
      assert q.armed + q.pending == q.armed && r.armed + r.pending == r.armed;
      InsertionDistinct(q.armed, k, e);
    }
  }

  /** Every operation, inside or outside a pass, keeps the queue well-formed. */
  lemma DoOk(q: Queue, op: Op)
    requires Ok(q)
    ensures Ok(Do(q, op)) && Do(q, op).locked == q.locked
  {
    if Legal(q, op) {
      RemoveOk(q, op.timer);
      var r := Obtain(Remove(q, op.timer));
      match op {
        case OpStart(t, repeat, now) => EnqueueOk(r, Entry(t, Due(now, q.intervals[t]), repeat));
        case OpTimeout(t, due) => EnqueueOk(r, Entry(t, due, 1));
        case _ =>
      }
    }
  }

  // ----- one pass of timer_check_timeout

  /** What one callback does: the clock its re-arming reads, then its operations. */
  datatype Firing = Firing(now: TimeVal, ops: seq<Op>)
  type Script = nat -> Firing

  /** The head entry leaves the list; it is re-timed while its repeat count lasts. */
  function Expire(q: Queue, now: TimeVal): Queue
    requires q.armed != [] && q.armed[0].timer in q.intervals
  {
    var e := q.armed[0].(repeat := q.armed[0].repeat - 1);
    var r := q.(armed := q.armed[1..]);
    if e.repeat != 0 then AddTimer(r, e, now) else r.(spare := r.spare + 1)
  }

  /** One turn of the loop: the head expires, then its callback runs. */
  function Fire(q: Queue, f: Firing): Queue
    requires q.armed != [] && q.armed[0].timer in q.intervals
  {
    DoAll(Expire(q, f.now), f.ops)
  }

  /** While a pass holds the lock, operations only take entries off the armed list. */
  ghost predicate Shrinks(q: Queue, r: Queue) {
    q.locked ==> |r.armed| <= |q.armed| && forall e :: e in r.armed ==> e in q.armed
  }

  lemma DoShrinks(q: Queue, op: Op)
    requires Ok(q)
    ensures Shrinks(q, Do(q, op))
  {
    if Legal(q, op) {
      var i := Find(q.armed, op.timer);
      if i < |q.armed| {
        assert forall e :: e in Without(q.armed, i) ==> e in q.armed;
      }
    }
  }

  lemma {:induction false} DoAllOk(q: Queue, ops: seq<Op>)
    requires Ok(q)
    ensures Ok(DoAll(q, ops)) && DoAll(q, ops).locked == q.locked
    ensures Shrinks(q, DoAll(q, ops))
    decreases |ops|
  {
    hide Ok, Do;
    if ops != [] {
      DoOk(q, ops[0]);
      DoShrinks(q, ops[0]);
      DoAllOk(Do(q, ops[0]), ops[1..]);
    }
  }

  lemma ExpireOk(q: Queue, now: TimeVal)
    requires Ok(q) && q.armed != []
    ensures q.armed[0].timer in q.intervals
    ensures Ok(Expire(q, now)) && Expire(q, now).locked == q.locked
    ensures q.locked ==> Expire(q, now).armed == q.armed[1..]
  {
    var e := q.armed[0];
    var s := q.armed + q.pending;
    assert s[0] == e;
    var r := q.(armed := q.armed[1..]);
    assert r.armed + r.pending == Without(s, 0);
    WithoutOk(s, 0);
    if e.repeat - 1 != 0 {
      EnqueueOk(r, Entry(e.timer, Due(now, q.intervals[e.timer]), e.repeat - 1));
    }
  }

  lemma FireOk(q: Queue, f: Firing)
    requires Ok(q) && q.armed != []
    ensures q.armed[0].timer in q.intervals
    ensures Ok(Fire(q, f)) && Fire(q, f).locked == q.locked
    ensures q.locked ==> |Fire(q, f).armed| < |q.armed| && forall e :: e in Fire(q, f).armed ==> e in q.armed[1..]
  {
    hide Ok;
    ExpireOk(q, f.now);
    DoAllOk(Expire(q, f.now), f.ops);
  }

  predicate Overdue(q: Queue, now: TimeVal) {
    q.armed != [] && TvCmp(now, q.armed[0].due) >= 0
  }

  /**
   * The loop of a pass from its k-th firing on: the queue when it stops and the entries that
   * fired, in order.  The recursion shows that the loop ends for every script.
   */
  ghost function Loop(q: Queue, now: TimeVal, script: Script, k: nat): (r: (Queue, seq<Entry>))
    requires Ok(q) && q.locked
    ensures Ok(r.0) && r.0.locked
    ensures |r.1| <= |q.armed|
    decreases |q.armed|
  {
    if !Overdue(q, now) then (q, [])
    else
      FireOk(q, script(k));
      var rest := Loop(Fire(q, script(k)), now, script, k + 1);
      (rest.0, [q.armed[0]] + rest.1)
  }

  /** Unlock and insert the pended entries. */
  function Merge(armed: seq<Entry>, pending: seq<Entry>): seq<Entry>
    decreases |pending|
  {
    if pending == [] then armed else Merge(Insert(armed, pending[0]), pending[1..])
  }

  function Finish(q: Queue): Queue {
    q.(armed := Merge(q.armed, q.pending), pending := [], locked := false)
  }

  /** timer_check_timeout up to its computation of the poll delay. */
  ghost function Pass(q: Queue, clock: TimeVal, script: Script): (r: (Queue, seq<Entry>))
    requires Ok(q) && !q.locked
  {
    var stopped := Loop(q.(locked := true), Sane(clock), script, 0);
    (Finish(stopped.0), stopped.1)
  }

  /** The poll delay in milliseconds; -1 waits forever. */
  function Delay(q: Queue, clock: TimeVal): int {
    if q.armed == [] then -1
    else
      var tv := TvSub(q.armed[0].due, Sane(clock));
      var timeout := tv.sec * 1000 + Div1000(tv.usec);
      if timeout < 0 then 0 else timeout
  }

  /** Inserting an entry of a new timer into the first of two lists. */
  lemma InsertTimers(armed: seq<Entry>, pending: seq<Entry>, e: Entry)
    requires Distinct(armed + pending) && forall x :: x in armed + pending ==> x.timer != e.timer
    ensures Distinct(Insert(armed, e) + pending)
    ensures forall x :: x in Insert(armed, e) + pending ==> x in armed + pending || x == e
  {
    hide Slot, Distinct;
    var s, k := armed + pending, Slot(armed, e.due);
    assert Insert(armed, e) + pending == s[..k] + [e] + s[k..];
    InsertionDistinct(s, k, e);
  }

  lemma InsertOk(q: Queue, e: Entry)
    requires Ok(q) && !Live(q, e.timer) && e.timer in q.intervals && Normal(e.due)
    ensures Ok(q.(armed := Insert(q.armed, e)))
  {
    InsertSorted(q.armed, e);
    InsertTimers(q.armed, q.pending, e);
    hide Insert, Sorted, AllNormal, Distinct;
  }

  /** Moving the first pended entry into the armed list. */
  lemma UnpendOk(q: Queue)
    requires Ok(q) && q.pending != []
    ensures Ok(q.(locked := true, armed := Insert(q.armed, q.pending[0]), pending := q.pending[1..]))
  {
    var s := q.armed + q.pending;
    var e := q.pending[0];
    var k := |q.armed|;
    assert s[k] == e;
    WithoutOk(s, k);
    var r := q.(locked := true, pending := q.pending[1..]);
    assert r.armed + r.pending == Without(s, k);
    InsertOk(r, e);
  }

  lemma {:induction false} MergeOk(q: Queue)
    requires Ok(q)
    ensures Ok(Finish(q))
    decreases |q.pending|
  {
    if q.pending == [] {
      assert q.armed + q.pending == q.armed + [];
    } else {
      hide Ok;
      UnpendOk(q);
      MergeOk(q.(locked := true, armed := Insert(q.armed, q.pending[0]), pending := q.pending[1..]));
    }
  }

  /** A pass keeps the queue well-formed, whatever its callbacks do. */
  lemma PassOk(q: Queue, clock: TimeVal, script: Script)
    requires Ok(q) && !q.locked
    ensures Ok(Pass(q, clock, script).0)
  {
    MergeOk(Loop(q.(locked := true), Sane(clock), script, 0).0);
  }

  // ----- main results about a pass

  lemma {:induction false} FiredFromArmed(q: Queue, now: TimeVal, script: Script, k: nat)
    requires Ok(q) && q.locked
    ensures forall e :: e in Loop(q, now, script, k).1 ==> e in q.armed
    decreases |q.armed|
  {
    hide Ok, Fire;
    if Overdue(q, now) {
      FireOk(q, script(k));
      FiredFromArmed(Fire(q, script(k)), now, script, k + 1);
    }
  }

  /** Each timer fires at most once in a pass, even with interval 0 and endless repetition. */
  lemma {:induction false} FiresOnce(q: Queue, now: TimeVal, script: Script, k: nat)
    requires Ok(q) && q.locked
    ensures Distinct(Loop(q, now, script, k).1)
    decreases |q.armed|
  {
    if Overdue(q, now) {
      FireOk(q, script(k));
      var r := Fire(q, script(k));
      FiresOnce(r, now, script, k + 1);
      FiredFromArmed(r, now, script, k + 1);
      var s := q.armed + q.pending;
      forall e | e in q.armed[1..]
        ensures e.timer != q.armed[0].timer
      {
        var i :| 0 <= i < |q.armed[1..]| && q.armed[1..][i] == e;
        assert s[i + 1] == e && s[0] == q.armed[0];
      }
    }
  }

  /** No entry fires a millisecond or more before it is due. */
  lemma {:induction false} FiresInTime(q: Queue, now: TimeVal, script: Script, k: nat)
    requires Ok(q) && q.locked && Normal(now)
    ensures forall e :: e in Loop(q, now, script, k).1 ==> Micros(e.due) - Micros(now) < 1000
    decreases |q.armed|
  {
    if Overdue(q, now) {
      TvCmpBounds(now, q.armed[0].due);
      FireOk(q, script(k));
      FiresInTime(Fire(q, script(k)), now, script, k + 1);
    }
  }

  /** When the loop stops, no armed entry is overdue by a millisecond or more. */
  lemma {:induction false} NoneLeftOverdue(q: Queue, now: TimeVal, script: Script, k: nat)
    requires Ok(q) && q.locked && Normal(now)
    ensures forall e :: e in Loop(q, now, script, k).0.armed ==> Micros(now) - Micros(e.due) < 1000
    decreases |q.armed|
  {
    if Overdue(q, now) {
      FireOk(q, script(k));
      NoneLeftOverdue(Fire(q, script(k)), now, script, k + 1);
    } else {
      forall i | 0 <= i < |q.armed|
        ensures Micros(now) - Micros(q.armed[i].due) < 1000
      {
        if i > 0 {
          StrictThenTie(now, q.armed[0].due, q.armed[i].due);
        }
        TvCmpBounds(now, q.armed[i].due);
      }
    }
  }

  /** The delay is -1 iff nothing is armed, and otherwise the whole milliseconds until the head is due, or 0 once it is. */
  lemma DelayMeans(q: Queue, clock: TimeVal)
    requires Ok(q)
    ensures Delay(q, clock) == -1 <==> q.armed == []
    ensures q.armed != [] ==>
              var left := Micros(q.armed[0].due) - Micros(Sane(clock));
              Delay(q, clock) == if left < 0 then 0 else left / 1000
  {
    hide Sorted, Distinct;
    if q.armed != [] {
      var tv := TvSub(q.armed[0].due, Sane(clock));
      assert 0 <= tv.usec <= MILLION && Micros(tv) == Micros(q.armed[0].due) - Micros(Sane(clock));
      assert (tv.sec * MILLION + tv.usec) / 1000 == tv.sec * 1000 + tv.usec / 1000;
    }
  }

  /** Sleeping for a positive poll delay passes no armed timer by a millisecond or more. */
  lemma DelayOversleepsNone(q: Queue, clock: TimeVal, e: Entry)
    requires Ok(q) && e in q.armed && Delay(q, clock) > 0
    ensures Micros(Sane(clock)) + Delay(q, clock) * 1000 - Micros(e.due) < 1000
  {
    var i :| 0 <= i < |q.armed| && q.armed[i] == e;
    var head := q.armed[0];
    assert Micros(Sane(clock)) + Delay(q, clock) * 1000 <= Micros(head.due);
    if i > 0 {
      TvCmpBounds(head.due, e.due);
    }
  }

  /** So poll never waits for ever, nor beyond any armed entry by a millisecond or more, unless nothing is armed or it is due already. */
  lemma PollWakes(q: Queue, clock: TimeVal, e: Entry)
    requires Ok(q) && e in q.armed
    ensures Delay(q, clock) >= 0
    ensures Delay(q, clock) == 0 || Micros(Sane(clock)) + Delay(q, clock) * 1000 - Micros(e.due) < 1000
  {
    DelayMeans(q, clock);
    if Delay(q, clock) > 0 {
      DelayOversleepsNone(q, clock, e);
    }
  }

  /** Some operation of the list names the timer. */
  ghost predicate Touches(ops: seq<Op>, t: nat) {
    exists i :: 0 <= i < |ops| && ops[i].timer == t
  }

  lemma RemoveKeeps(s: seq<Entry>, t: nat, e: Entry)
    requires e in s && e.timer != t && Find(s, t) < |s|
    ensures e in Without(s, Find(s, t))
  {
    var k := Find(s, t);
    var i :| 0 <= i < |s| && s[i] == e;
    assert Without(s, k)[if i < k then i else i - 1] == e;
  }

  lemma {:induction false} UntouchedStays(q: Queue, ops: seq<Op>, e: Entry)
    requires Ok(q) && q.locked && e in q.armed && !Touches(ops, e.timer)
    ensures e in DoAll(q, ops).armed
    decreases |ops|
  {
    if ops != [] {
      var op := ops[0];
      assert op.timer != e.timer;
      DoOk(q, op);
      if Find(q.armed, op.timer) < |q.armed| {
        RemoveKeeps(q.armed, op.timer, e);
      }
      assert e in Do(q, op).armed;
      assert forall i :: 0 <= i < |ops[1..]| ==> ops[1..][i] == ops[i + 1];
      UntouchedStays(Do(q, op), ops[1..], e);
    }
  }

  /** An armed entry fires, stays armed, or was touched by a callback of this pass: none is lost. */
  lemma {:induction false} NoneLost(q: Queue, now: TimeVal, script: Script, k: nat, e: Entry)
    requires Ok(q) && q.locked && e in q.armed
    ensures var (stopped, fired) := Loop(q, now, script, k);
            || e in fired
            || e in stopped.armed
            || exists n :: k <= n < k + |fired| && Touches(script(n).ops, e.timer)
    decreases |q.armed|
  {
    hide Ok;
    if Overdue(q, now) && e != q.armed[0] {
      assert e in q.armed[1..];
      ExpireOk(q, script(k).now);
      FireOk(q, script(k));
      if !Touches(script(k).ops, e.timer) {
        UntouchedStays(Expire(q, script(k).now), script(k).ops, e);
        NoneLost(Fire(q, script(k)), now, script, k + 1, e);
      }
    }
  }

  /**
   * The whole pass: an entry that was overdue by a millisecond or more when the pass read its
   * clock has fired, unless a callback of the pass restarted, re-timed, stopped or destroyed its timer.
   */
  lemma OverdueFires(q: Queue, clock: TimeVal, script: Script, e: Entry)
    requires Ok(q) && !q.locked && e in q.armed
    requires Micros(Sane(clock)) - Micros(e.due) >= 1000
    ensures var fired := Pass(q, clock, script).1;
            e in fired || exists n :: 0 <= n < |fired| && Touches(script(n).ops, e.timer)
  {
    hide Loop;
    NoneLost(q.(locked := true), Sane(clock), script, 0, e);
    NoneLeftOverdue(q.(locked := true), Sane(clock), script, 0);
  }

  // ----- the width of the C arithmetic

  /** Within 24 days the comparison and its product fit 32 bits; beyond, C's result is undefined. */
  lemma ComparisonFits(a: TimeVal, b: TimeVal)
    requires Normal(a) && Normal(b) && -2147482 <= a.sec - b.sec <= 2147482
    ensures -0x8000_0000 <= (a.sec - b.sec) * 1000 < 0x8000_0000
    ensures -0x8000_0000 <= TvCmp(a, b) < 0x8000_0000
  {
  }
}
