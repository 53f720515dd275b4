/**
 * The task scheduler: a list of one-shot tasks run one per firing of a repeating timer
 * that is switched off while there is nothing to run.
 */
module Scheduler {
  import opened TimerQueue
  import opened TimerLists
  import opened TimerLive
  import opened LinkedList

  /** Contexts and task functions are compared as pointers; they are numbers here. */
  datatype Task = Task(ctxt: nat, task: nat, prio: int)

  ghost predicate Unique(s: seq<Task>) {
    forall i, j :: 0 <= i < j < |s| ==> s[i].ctxt != s[j].ctxt || s[i].task != s[j].task
  }

  /** Position of the first (ctxt, task) entry, or |s|. */
  function FindTask(s: seq<Task>, ctxt: nat, task: nat): (k: nat)
    ensures k <= |s|
    ensures forall i :: 0 <= i < k ==> s[i].ctxt != ctxt || s[i].task != task
    ensures k < |s| ==> s[k].ctxt == ctxt && s[k].task == task
  {
    if s == [] || (s[0].ctxt == ctxt && s[0].task == task) then 0 else 1 + FindTask(s[1..], ctxt, task)
  }

  /** scheduler_delete_task */
  function DeleteTask(s: seq<Task>, ctxt: nat, task: nat): seq<Task> {
    var k := FindTask(s, ctxt, task);
    if k < |s| then s[..k] + s[k + 1..] else s
  }

  /** scheduler_delete_all */
  function DeleteAll(s: seq<Task>, ctxt: nat): (r: seq<Task>)
    ensures forall t :: t in r <==> t in s && t.ctxt != ctxt
  {
    if s == [] then [] else (if s[0].ctxt == ctxt then [] else [s[0]]) + DeleteAll(s[1..], ctxt)
  }

  /** Past the head, an entry goes before the first one of smaller number (the code's comparison). */
  function PlaceAfter(s: seq<Task>, prio: int, from: nat): (k: nat)
    requires from <= |s|
    ensures from <= k <= |s|
    decreases |s| - from
  {
    if from == |s| || prio > s[from].prio then from else PlaceAfter(s, prio, from + 1)
  }

  function Place(s: seq<Task>, prio: int): (k: nat)
    ensures k <= |s|
  {
    if s == [] || prio < s[0].prio then 0 else PlaceAfter(s, prio, 1)
  }

  function InsertTask(s: seq<Task>, t: Task): seq<Task> {
    var k := Place(s, t.prio);
    s[..k] + [t] + s[k..]
  }

  // ----- the scheduler together with its timer

  /** The timer queue and the task list; `timer` below is the scheduler's own timer. */
  datatype State = State(q: Queue, tasks: seq<Task>)

  function SwitchedOn(q: Queue, timer: nat, now: TimeVal): Queue {
    Start(if timer in q.intervals then q else q.(intervals := q.intervals[timer := 0]), timer, -1, now)
  }

  function SwitchedOff(q: Queue, timer: nat): Queue {
    if timer in q.intervals then Remove(q, timer) else q
  }

  function Enable(s: State, timer: nat, now: TimeVal): State {
    s.(q := SwitchedOn(s.q, timer, now))
  }

  function Disable(s: State, timer: nat): State {
    s.(q := SwitchedOff(s.q, timer))
  }

  function AddTask(s: State, timer: nat, t: Task, now: TimeVal): State {
    var rest := DeleteTask(s.tasks, t.ctxt, t.task);
    var r := s.(tasks := InsertTask(rest, t));
    if rest == [] then Enable(r, timer, now) else r
  }

  /** What code outside the scheduler, or a running task, may do. */
  datatype Action =
    | Schedule(t: Task, now: TimeVal)
    | Cancel(ctxt: nat, task: nat)
    | CancelAll(ctxt: nat)
    | OtherTimer(op: Op)

  function Act(s: State, timer: nat, a: Action): State {
    match a
    case Schedule(t, now) => AddTask(s, timer, t, now)
    case Cancel(ctxt, task) => s.(tasks := DeleteTask(s.tasks, ctxt, task))
    case CancelAll(ctxt) => s.(tasks := DeleteAll(s.tasks, ctxt))
    case OtherTimer(op) => if op.timer == timer then s else s.(q := Do(s.q, op))
  }

  function ActAll(s: State, timer: nat, actions: seq<Action>): State
    decreases |actions|
  {
    if actions == [] then s else ActAll(Act(s, timer, actions[0]), timer, actions[1..])
  }

  /** After a task has run, an empty list switches the timer off. */
  function EndTask(s: State, timer: nat): State {
    if s.tasks == [] then Disable(s, timer) else s
  }

  /** scheduler_callback, when the task it runs performs `actions`. */
  function Callback(s: State, timer: nat, actions: seq<Action>): State {
    if s.tasks == [] then Disable(s, timer)
    else EndTask(ActAll(s.(tasks := s.tasks[1..]), timer, actions), timer)
  }

  // ----- runs, with passes and tasks in progress visible

  datatype Phase = Idle | Passing | Tasking
  datatype World = World(phase: Phase, s: State)

  datatype Event =
    | Acts(a: Action)          // a client, a timer callback or the running task does something
    | PassBegins
    | HeadFires(now: TimeVal)  // the head timer expires; the scheduler's own enters its callback
    | TaskReturns
    | PassEnds

  function Step(w: World, timer: nat, e: Event): World {
    match e
    case Acts(a) => w.(s := Act(w.s, timer, a))
    case PassBegins => if w.phase.Idle? then World(Passing, w.s.(q := w.s.q.(locked := true))) else w
    case HeadFires(now) =>
      if !w.phase.Passing? || w.s.q.armed == [] || w.s.q.armed[0].timer !in w.s.q.intervals then w
      else
        var s := w.s.(q := Expire(w.s.q, now));
        if w.s.q.armed[0].timer != timer then World(Passing, s)
        else if s.tasks == [] then World(Passing, Disable(s, timer))
        else World(Tasking, s.(tasks := s.tasks[1..]))
    case TaskReturns => if w.phase.Tasking? then World(Passing, EndTask(w.s, timer)) else w
    case PassEnds => if w.phase.Passing? then World(Idle, w.s.(q := Finish(w.s.q))) else w
  }

  function Run(w: World, timer: nat, events: seq<Event>): World
    decreases |events|
  {
    if events == [] then w else Run(Step(w, timer, events[0]), timer, events[1..])
  }

  /** Some live entry of the timer repeats without end. */
  ghost predicate Ticking(q: Queue, timer: nat) {
    exists e :: e in q.armed + q.pending && e.timer == timer && e.repeat < 0
  }

  ghost predicate Good(s: State, timer: nat) {
    && Ok(s.q) && Unique(s.tasks)
    && (s.tasks != [] ==> Ticking(s.q, timer))
  }

  ghost predicate Invariant(w: World, timer: nat) {
    Good(w.s, timer) && (w.phase.Idle? <==> !w.s.q.locked)
  }

  // ----- the task list

  lemma DeleteTaskUnique(s: seq<Task>, ctxt: nat, task: nat)
    requires Unique(s)
    ensures Unique(DeleteTask(s, ctxt, task))
    ensures forall t :: t in DeleteTask(s, ctxt, task) <==> t in s && !(t.ctxt == ctxt && t.task == task)
  {
    var k := FindTask(s, ctxt, task);
    var r := DeleteTask(s, ctxt, task);
    forall t | t in s && !(t.ctxt == ctxt && t.task == task)
      ensures t in r
    {
      var i :| 0 <= i < |s| && s[i] == t;
      assert k < |s| ==> r[if i < k then i else i - 1] == t;
    }
  }

  lemma {:induction false} DeleteAllUnique(s: seq<Task>, ctxt: nat)
    requires Unique(s)
    ensures Unique(DeleteAll(s, ctxt))
    decreases |s|
  {
    if s != [] {
      DeleteAllUnique(s[1..], ctxt);
    }
  }

  lemma InsertTaskUnique(s: seq<Task>, t: Task)
    requires Unique(s)
    requires forall x :: x in s ==> x.ctxt != t.ctxt || x.task != t.task
    ensures Unique(InsertTask(s, t))
    ensures forall x :: x in InsertTask(s, t) <==> x in s || x == t
  {
    hide Place;
    var k, r := Place(s, t.prio), InsertTask(s, t);
    assert r[k] == t;
    forall x | x in s ensures x in r {
      var i :| 0 <= i < |s| && s[i] == x;
      assert r[if i < k then i else i + 1] == x;
    }
  }

  lemma {:induction false} PlacedAfter(s: seq<Task>, prio: int, from: nat)
    requires from <= |s|
    ensures var k := PlaceAfter(s, prio, from);
            (forall i :: from <= i < k ==> s[i].prio >= prio) && (k < |s| ==> s[k].prio < prio)
    decreases |s| - from
  {
    if from < |s| && prio <= s[from].prio {
      PlacedAfter(s, prio, from + 1);
    }
  }

  /**
   * Where a new task goes: in front iff its number is less than that of the first task; otherwise
   * every task passed, but for the first, has its number or a greater one, and the next has a less one.
   */
  lemma TaskPlaced(s: seq<Task>, t: Task) returns (k: nat)
    ensures k <= |s| && InsertTask(s, t) == s[..k] + [t] + s[k..]
    ensures k == 0 <==> s == [] || t.prio < s[0].prio
    ensures k > 0 ==> forall i :: 1 <= i < k ==> s[i].prio >= t.prio
    ensures 0 < k < |s| ==> s[k].prio < t.prio
  {
    k := Place(s, t.prio);
    if k > 0 {
      PlacedAfter(s, t.prio, 1);
    }
  }

  /** Tasks of one number run in the order in which they were scheduled. */
  lemma EqualsInOrder(s: seq<Task>, t: Task)
    requires forall x :: x in s ==> x.prio == t.prio
    ensures InsertTask(s, t) == s + [t]
  {
    var k := TaskPlaced(s, t);
    assert forall i :: 0 <= i < |s| ==> s[i].prio == t.prio;
    hide InsertTask;
  }

  /** The tasks stand in the order of their numbers. */
  ghost predicate InOrder(s: seq<Task>) {
    forall i, j :: 0 <= i < j < |s| ==> s[i].prio <= s[j].prio
  }

  /**
   * The two comparisons of the search point in opposite directions: scheduling keeps a list in order
   * iff the new task has a less number than all others, or all but the first have its number.
   */
  lemma StaysInOrderIff(s: seq<Task>, t: Task)
    requires InOrder(s)
    ensures InOrder(InsertTask(s, t)) <==>
              s == [] || t.prio < s[0].prio || forall i :: 1 <= i < |s| ==> s[i].prio == t.prio
  {
    hide InsertTask;
    var k := TaskPlaced(s, t);
    var r := InsertTask(s, t);
    assert r[k] == t && forall i :: 0 <= i < |s| ==> r[if i < k then i else i + 1] == s[i];
    if 0 < k < |s| {
      assert r[k + 1] == s[k];
    } else if 0 < k == |s| {
      forall i | 1 <= i < |s| && InOrder(r) ensures s[i].prio == t.prio {
        assert r[i] == s[i];
      }
    }
  }

  /** The first task has the least number. */
  ghost predicate LeastFirst(s: seq<Task>) {
    forall i :: 0 <= i < |s| ==> s[0].prio <= s[i].prio
  }

  /** Scheduling keeps it so ... */
  lemma InsertLeastFirst(s: seq<Task>, t: Task)
    requires LeastFirst(s)
    ensures LeastFirst(InsertTask(s, t))
  {
    var k := TaskPlaced(s, t);
    hide InsertTask;
  }

  /** ... but running does not: of three tasks scheduled in the order of their numbers the third runs before the second. */
  lemma ThirdRunsSecond(a: Task, b: Task, c: Task)
    requires a.prio < b.prio < c.prio
    ensures var s := InsertTask(InsertTask(InsertTask([], a), b), c); s == [a, c, b] && LeastFirst(s) && !LeastFirst(s[1..])
  {
    hide InsertTask;
    var i := TaskPlaced([], a);
    assert [][..i] + [a] + [][i..] == [a];
    var j := TaskPlaced([a], b);
    assert [a][..1] + [b] + [a][1..] == [a, b];
    var k := TaskPlaced([a, b], c);
    assert [a, b][..1] + [c] + [a, b][1..] == [a, c, b];
    assert [a, c, b][1..] == [c, b] && [c, b][1] == b;
  }

  // ----- the timer stays armed

  lemma TickingEntry(q: Queue, timer: nat) returns (e: Entry)
    requires Ticking(q, timer)
    ensures Holds(q, e) && e.timer == timer && e.repeat < 0
  {
    e :| e in q.armed + q.pending && e.timer == timer && e.repeat < 0;
  }

  lemma HoldsTicking(q: Queue, timer: nat, e: Entry)
    requires Holds(q, e) && e.timer == timer && e.repeat < 0
    ensures Ticking(q, timer)
  {
    assert e in q.armed + q.pending;
  }

  lemma DoTicking(q: Queue, timer: nat, op: Op)
    requires Ticking(q, timer) && op.timer != timer
    ensures Ticking(Do(q, op), timer)
  {
    hide Do, Ticking;
    var e := TickingEntry(q, timer);
    DoHolds(q, op, e);
    HoldsTicking(Do(q, op), timer, e);
  }

  lemma EnableGood(s: State, timer: nat, now: TimeVal)
    requires Ok(s.q) && Unique(s.tasks)
    ensures Good(Enable(s, timer, now), timer)
    ensures Enable(s, timer, now).q.locked == s.q.locked
  {
    hide Ok, Remove, Enqueue, Due;
    var q := if timer in s.q.intervals then s.q else Do(s.q, OpCreate(timer, 0));
    DoOk(s.q, OpCreate(timer, 0));
    DoOk(q, OpStart(timer, -1, now));
    assert Start(q, timer, -1, now) == Do(q, OpStart(timer, -1, now));
    StartHolds(q, timer, -1, now);
    HoldsTicking(Start(q, timer, -1, now), timer, Entry(timer, Due(now, q.intervals[timer]), -1));
  }

  lemma DisableGood(s: State, timer: nat)
    requires Ok(s.q) && s.tasks == []
    ensures Good(Disable(s, timer), timer)
    ensures Disable(s, timer).q.locked == s.q.locked
  {
    RemoveOk(s.q, timer);
  }

  /** Whatever clients or a running task do, pairs stay unique and waiting tasks keep the timer running. */
  lemma ActGood(s: State, timer: nat, a: Action)
    requires Good(s, timer)
    ensures Good(Act(s, timer, a), timer)
    ensures Act(s, timer, a).q.locked == s.q.locked
  {
    hide Ok, Ticking, Enable, Do;
    match a {
      case Schedule(t, now) =>
        var rest := DeleteTask(s.tasks, t.ctxt, t.task);
        DeleteTaskUnique(s.tasks, t.ctxt, t.task);
        InsertTaskUnique(rest, t);
        if rest == [] {
          EnableGood(s.(tasks := InsertTask(rest, t)), timer, now);
        } else {
          assert rest[0] in s.tasks;
        }
      case Cancel(ctxt, task) =>
        DeleteTaskUnique(s.tasks, ctxt, task);
      case CancelAll(ctxt) =>
        DeleteAllUnique(s.tasks, ctxt);
      case OtherTimer(op) =>
        if op.timer != timer {
          DoOk(s.q, op);
          if s.tasks != [] {
            DoTicking(s.q, timer, op);
          }
        }
    }
  }

  lemma ExpireTicking(q: Queue, timer: nat, now: TimeVal)
    requires q.armed != [] && q.armed[0].timer in q.intervals && Ticking(q, timer)
    ensures Ticking(Expire(q, now), timer)
  {
    hide Expire, Ticking, Due;
    var e := TickingEntry(q, timer);
    if e == q.armed[0] {
      ExpireRepeats(q, now);
      HoldsTicking(Expire(q, now), timer, Entry(timer, Due(now, q.intervals[timer]), e.repeat - 1));
    } else {
      ExpireHolds(q, now, e);
      HoldsTicking(Expire(q, now), timer, e);
    }
  }

  lemma FinishTicking(q: Queue, timer: nat)
    requires Ticking(q, timer)
    ensures Ticking(Finish(q), timer)
  {
    hide Finish, Ticking;
    var e := TickingEntry(q, timer);
    FinishHolds(q, e);
    HoldsTicking(Finish(q), timer, e);
  }

  lemma TailUnique(s: seq<Task>)
    requires Unique(s) && s != []
    ensures Unique(s[1..])
  {
  }

  lemma HeadFiresInvariant(w: World, timer: nat, now: TimeVal)
    requires Invariant(w, timer)
    ensures Invariant(Step(w, timer, HeadFires(now)), timer)
  {
    hide Ok, Ticking, Disable, Expire, Unique;
    var v := Step(w, timer, HeadFires(now));
    if w.phase.Passing? && w.s.q.armed != [] && w.s.q.armed[0].timer in w.s.q.intervals {
      ExpireOk(w.s.q, now);
      var s := w.s.(q := Expire(w.s.q, now));
      if s.tasks == [] {
        DisableGood(s, timer);
      } else {
        ExpireTicking(w.s.q, timer, now);
        TailUnique(s.tasks);
      }
    }
  }

  /** Every step of every run keeps the invariant. */
  lemma StepInvariant(w: World, timer: nat, e: Event)
    requires Invariant(w, timer)
    ensures Invariant(Step(w, timer, e), timer)
  {
    match e {
      case Acts(a) =>
        ActGood(w.s, timer, a);
      case HeadFires(now) =>
        HeadFiresInvariant(w, timer, now);
      case TaskReturns =>
        if w.s.tasks == [] {
          DisableGood(w.s, timer);
        }
      case PassBegins =>
      case PassEnds =>
        hide Ok, Ticking;
        MergeOk(w.s.q);
        if w.s.tasks != [] {
          FinishTicking(w.s.q, timer);
        }
    }
  }

  // ----- main results

  /**
   * In every reachable state, between callbacks and inside them, waiting tasks have a timer
   * that is live and repeats without end, and (context, task) pairs are unique.
   */
  lemma {:induction false} RunInvariant(w: World, timer: nat, events: seq<Event>)
    requires Invariant(w, timer)
    ensures Invariant(Run(w, timer, events), timer)
    decreases |events|
  {
    hide Invariant, Step;
    if events != [] {
      StepInvariant(w, timer, events[0]);
      RunInvariant(Step(w, timer, events[0]), timer, events[1..]);
    }
  }

  /** The same from the start: an empty queue, no task, no pass. */
  lemma TasksKeepTimerRunning(timer: nat, events: seq<Event>)
    ensures var w := Run(World(Idle, State(EMPTY, [])), timer, events);
            && Unique(w.s.tasks)
            && (w.s.tasks != [] ==> Ticking(w.s.q, timer) && Live(w.s.q, timer))
  {
    RunInvariant(World(Idle, State(EMPTY, [])), timer, events);
  }

  lemma DisableStops(s: State, timer: nat)
    requires Ok(s.q)
    ensures !Live(Disable(s, timer).q, timer)
  {
    hide Distinct, Sorted, AllNormal;
    if timer in s.q.intervals {
      RemoveOk(s.q, timer);
    }
  }

  /** In every run, the callback that leaves no task behind leaves the timer switched off. */
  lemma NothingLeftStops(timer: nat, events: seq<Event>, e: Event)
    ensures var w := Run(World(Idle, State(EMPTY, [])), timer, events);
            var v := Step(w, timer, e);
            v.s.tasks == []
            && ((e.TaskReturns? && w.phase.Tasking?)
                || (e.HeadFires? && w.phase.Passing? && v.phase.Passing?
                    && w.s.q.armed != [] && w.s.q.armed[0].timer == timer)) ==>
              !Live(v.s.q, timer)
  {
    var w := Run(World(Idle, State(EMPTY, [])), timer, events);
    RunInvariant(World(Idle, State(EMPTY, [])), timer, events);
    assert Invariant(w, timer);
    hide Run, Live, Disable, Ticking, Unique;
    if e.TaskReturns? {
      DisableStops(w.s, timer);
    } else if e.HeadFires? && w.s.q.armed != [] {
      ExpireOk(w.s.q, e.now);
      DisableStops(w.s.(q := Expire(w.s.q, e.now)), timer);
    }
    hide Ok, Expire;
  }

  function TaskEvents(actions: seq<Action>): seq<Event> {
    if actions == [] then [TaskReturns] else [Acts(actions[0])] + TaskEvents(actions[1..])
  }

  /** A firing of the scheduler's timer whose task performs `actions`, event by event ... */
  function Firing(now: TimeVal, actions: seq<Action>): seq<Event> {
    [HeadFires(now)] + TaskEvents(actions)
  }

  lemma {:induction false} TaskEventsRun(s: State, timer: nat, actions: seq<Action>)
    ensures Run(World(Tasking, s), timer, TaskEvents(actions)) == World(Passing, EndTask(ActAll(s, timer, actions), timer))
    decreases |actions|
  {
    hide EndTask, Act;
    var w := World(Tasking, s);
    var events := TaskEvents(actions);
    if actions == [] {
      assert Run(Step(w, timer, events[0]), timer, events[1..]) == Step(w, timer, TaskReturns);
    } else {
      assert events[1..] == TaskEvents(actions[1..]);
      TaskEventsRun(Act(s, timer, actions[0]), timer, actions[1..]);
    }
  }

  /** ... is the timer entry's expiry followed by scheduler_callback. */
  lemma FiringIsCallback(w: World, timer: nat, now: TimeVal, actions: seq<Action>)
    requires w.phase.Passing? && w.s.tasks != []
    requires w.s.q.armed != [] && w.s.q.armed[0].timer == timer && timer in w.s.q.intervals
    ensures Run(w, timer, Firing(now, actions))
         == World(Passing, Callback(w.s.(q := Expire(w.s.q, now)), timer, actions))
  {
    hide Expire, ActAll, EndTask;
    var events := Firing(now, actions);
    assert events[1..] == TaskEvents(actions);
    TaskEventsRun(w.s.(q := Expire(w.s.q, now), tasks := w.s.tasks[1..]), timer, actions);
  }

  // ----- the program

  lemma {:induction false} DeleteAllDrop(s: seq<Task>, ctxt: nat, k: nat)
    requires k < |s| && s[k].ctxt == ctxt
    ensures DeleteAll(s[..k] + s[k + 1..], ctxt) == DeleteAll(s, ctxt)
    decreases k
  {
    var r := s[..k] + s[k + 1..];
    if k == 0 {
      assert r == s[1..];
    } else {
      assert r[1..] == s[1..][..k - 1] + s[1..][k..];
      DeleteAllDrop(s[1..], ctxt, k - 1);
    }
  }

  lemma {:induction false} DeleteAllNone(s: seq<Task>, ctxt: nat)
    requires forall i :: 0 <= i < |s| ==> s[i].ctxt != ctxt
    ensures DeleteAll(s, ctxt) == s
    decreases |s|
  {
    if s != [] {
      DeleteAllNone(s[1..], ctxt);
    }
  }

  class TaskScheduler {
    const timers: Timers
    /** The scheduler's timer; it exists once the scheduler was first enabled. */
    const id: nat
    var entries: Node?<Task>

    ghost var chain: seq<Node<Task>>

    /** The list of entries is acyclic. */
    ghost predicate Chained()
      reads this`entries, this`chain, chain
    {
      Chain(entries, chain) && NoDup(chain)
    }

    ghost function Tasks(): seq<Task>
      reads this`chain, chain
    {
      Vals(chain)
    }

    constructor (timers: Timers, id: nat)
      ensures this.timers == timers && this.id == id && Chained() && Tasks() == []
    {
      this.timers, this.id, this.entries, this.chain := timers, id, null, [];
    }

    ghost function View(): State
      reads this, chain, timers, timers.Nodes()
    {
      State(timers.View(), Tasks())
    }

    /** Entries are either old ones or newly allocated. */
    twostate predicate Renewed(before: seq<Node<Task>>)
      reads this`entries, this`chain, chain
    {
      Chained() && forall n :: n in chain && n !in before ==> fresh(n)
    }

    /** scheduler_enable */
    method SwitchOn(now: TimeVal)
      requires timers.Linked()
      modifies timers, timers.Nodes()
      ensures timers.Grown(old(timers.Nodes()))
      ensures timers.View() == SwitchedOn(old(timers.View()), id, now)
    {
      hide Start, Timers.Linked, Timers.Nodes;
      if id !in timers.intervals {
        timers.CreateTimer(id, 0);
      }
      timers.StartTimer(id, -1, now);
    }

    /** scheduler_disable */
    method SwitchOff()
      requires timers.Linked()
      modifies timers, timers.Nodes()
      ensures timers.Grown(old(timers.Nodes()))
      ensures timers.View() == SwitchedOff(old(timers.View()), id)
    {
      hide Remove, Timers.Linked, Timers.Nodes;
      if id in timers.intervals {
        timers.StopTimer(id);
      }
    }

    /** Entry k, which follows pp or is the head, is unlinked and freed. */
    method Unlink(pp: Node?<Task>, pe: Node<Task>, ghost k: nat)
      requires Chained() && k < |chain| && pe == chain[k] && pp == if k == 0 then null else chain[k - 1]
      modifies this`entries, this`chain, chain`next
      ensures Chained() && Tasks() == old(Tasks())[..k] + old(Tasks())[k + 1..]
      ensures chain == Dropped(old(chain), k) && forall n :: n in chain ==> n in old(chain)
    {
      hide Chain, NoDup;
      ChainEmpty(entries, chain);
      entries := Bypass(entries, pp, pe, chain, k);
      chain := Dropped(chain, k);
    }

    /** scheduler_delete_task */
    method Delete(ctxt: nat, task: nat) returns (res: int)
      requires Chained()
      modifies this`entries, this`chain, chain`next
      ensures Chained() && Tasks() == DeleteTask(old(Tasks()), ctxt, task)
      ensures forall n :: n in chain ==> n in old(chain)
      ensures res == -1 <==> Tasks() == old(Tasks())
    {
      hide FindTask;
      ghost var k := FindTask(Tasks(), ctxt, task);
      var pe := entries;
      if pe == null {
        return -1;
      }
      assert Tasks()[0] == pe.val;
      if pe.val.ctxt == ctxt && pe.val.task == task {
        Unlink(null, pe, 0);
        return 0;
      }
      ghost var i := 0;
      while pe.next != null && !(pe.next.val.ctxt == ctxt && pe.next.val.task == task)
        invariant 0 <= i < |chain| && pe == chain[i]
        invariant i < k
        decreases |chain| - i
        modifies {}
      {
        assert Joined(chain, i) && Tasks()[i + 1] == pe.next.val;
        pe := pe.next;
        i := i + 1;
      }
      assert Joined(chain, i);
      if pe.next == null {
        return -1;
      }
      assert Tasks()[i + 1] == pe.next.val;
      Unlink(pe, pe.next, i + 1);
      res := 0;
    }

    lemma HeadTask()
      requires Chained() && entries != null
      ensures |chain| == |Tasks()| > 0 && entries == chain[0] && Tasks()[0] == entries.val
    {
    }

    lemma NextTask(i: nat)
      requires Chained() && i < |chain|
      ensures |Tasks()| == |chain| && Tasks()[i] == chain[i].val
      ensures if i + 1 < |chain| then chain[i].next == chain[i + 1] && Tasks()[i + 1] == chain[i + 1].val else chain[i].next == null
    {
      assert Joined(chain, i);
    }

    /** The match behind entry i goes. */
    method DropNext(pe: Node<Task>, ctxt: nat, ghost i: nat)
      requires Chained() && i + 1 < |chain| && pe == chain[i] && chain[i + 1].val.ctxt == ctxt
      modifies this`entries, this`chain, chain`next
      ensures Chained() && i < |chain| < |old(chain)| && pe == chain[i]
      ensures forall n :: n in chain ==> n in old(chain)
      ensures Tasks()[..i + 1] == old(Tasks())[..i + 1]
      ensures DeleteAll(Tasks(), ctxt) == DeleteAll(old(Tasks()), ctxt)
    {
      NextTask(i);
      NextTask(i + 1);
      hide Chained, DeleteAll, Joined, Vals;
      DeleteAllDrop(Tasks(), ctxt, i + 1);
      Unlink(pe, pe.next, i + 1);
    }

    /** Drop every match behind the head. */
    method DeleteLater(head: Node<Task>, ctxt: nat)
      requires Chained() && head == entries && head.val.ctxt != ctxt
      modifies this`entries, this`chain, chain`next
      ensures Chained() && Tasks() == DeleteAll(old(Tasks()), ctxt)
      ensures forall n :: n in chain ==> n in old(chain)
    {
      hide Chained, DeleteAll, Joined, Vals;
      var pe := head;
      ghost var i := 0;
      HeadTask();
      while pe.next != null
        invariant Chained() && 0 <= i < |chain| && pe == chain[i]
        invariant forall n :: n in chain ==> n in old(chain)
        invariant |Tasks()| == |chain| && forall t :: t in Tasks()[..i + 1] ==> t.ctxt != ctxt
        invariant DeleteAll(Tasks(), ctxt) == DeleteAll(old(Tasks()), ctxt)
        decreases |chain| - i
      {
        NextTask(i);
        if pe.next.val.ctxt == ctxt {
          assert forall j :: 0 <= j < |chain| ==> chain[j] in chain;
          DropNext(pe, ctxt, i);
        } else {
          assert Tasks()[..i + 2] == Tasks()[..i + 1] + [Tasks()[i + 1]];
          pe := pe.next;
          i := i + 1;
        }
      }
      NextTask(i);
      DeleteAllNone(Tasks(), ctxt);
    }

    lemma NoTask()
      requires Chained()
      ensures entries == null <==> Tasks() == []
    {
    }

    /** scheduler_delete_all: drop matching heads, then every later match. */
    method DeleteContext(ctxt: nat)
      requires Chained()
      modifies this`entries, this`chain, chain`next
      ensures Chained() && Tasks() == DeleteAll(old(Tasks()), ctxt)
      ensures forall n :: n in chain ==> n in old(chain)
    {
      hide Chained, DeleteAll;
      while entries != null && entries.val.ctxt == ctxt
        invariant Chained() && DeleteAll(Tasks(), ctxt) == DeleteAll(old(Tasks()), ctxt)
        invariant forall n :: n in chain ==> n in old(chain)
        decreases |chain|
      {
        HeadTask();
        DeleteAllDrop(Tasks(), ctxt, 0);
        assert forall j :: 0 <= j < |chain| ==> chain[j] in chain;
        Unlink(null, entries, 0);
      }
      if entries != null {
        HeadTask();
        assert forall j :: 0 <= j < |chain| ==> chain[j] in chain;
        DeleteLater(entries, ctxt);
      } else {
        NoTask();
        DeleteAllNone(Tasks(), ctxt);
      }
    }

    method LinkAt(pe: Node?<Task>, entry: Node<Task>, ghost k: nat)
      requires Chained() && entry !in chain && k <= |chain| && pe == if k == 0 then null else chain[k - 1]
      modifies this`entries, this`chain, chain`next, entry`next
      ensures Chained() && Tasks() == old(Tasks())[..k] + [entry.val] + old(Tasks())[k..]
      ensures forall n :: n in chain ==> n in old(chain) || n == entry
    {
      hide Chain, NoDup;
      entries := LinkAfter(entries, pe, entry, chain, k);
      chain := Spliced(chain, k, entry);
    }

    /** The new entry is linked into the list; `first` says that the list was empty. */
    method Link(entry: Node<Task>) returns (first: bool)
      requires Chained() && entry !in chain
      modifies this`entries, this`chain, chain`next, entry`next
      ensures Chained() && Tasks() == InsertTask(old(Tasks()), entry.val)
      ensures forall n :: n in chain ==> n in old(chain) || n == entry
      ensures first <==> old(Tasks()) == []
    {
      first := entries == null;
      ghost var tasks, k := Tasks(), 0;
      var pe := entries;
      if pe == null || entry.val.prio < pe.val.prio {
        pe := null;
      } else {
        k := 1;
        while pe.next != null && entry.val.prio <= pe.next.val.prio
          invariant 1 <= k <= |chain| && pe == chain[k - 1]
          invariant PlaceAfter(tasks, entry.val.prio, k) == PlaceAfter(tasks, entry.val.prio, 1)
          decreases |chain| - k
          modifies {}
        {
          assert Joined(chain, k - 1);
          pe := pe.next;
          k := k + 1;
        }
        assert Joined(chain, k - 1);
      }
      assert k == Place(tasks, entry.val.prio);
      LinkAt(pe, entry, k);
    }

    /** The list part of scheduler_add_task. */
    method Enter(t: Task) returns (first: bool)
      requires Chained()
      modifies this`entries, this`chain, chain
      ensures Renewed(old(chain))
      ensures var rest := DeleteTask(old(Tasks()), t.ctxt, t.task);
              Tasks() == InsertTask(rest, t) && (first <==> rest == [])
    {
      hide DeleteTask, InsertTask;
      var _ := Delete(t.ctxt, t.task);
      var entry := new Node(t);
      assert forall j :: 0 <= j < |chain| ==> chain[j] in chain;
      first := Link(entry);
    }

    /** The scheduler's list is stored apart from the timer queue. */
    lemma Apart()
      ensures forall n :: n in timers.Nodes() ==> n as object != this
      ensures forall n, i :: n in timers.Nodes() && 0 <= i < |chain| ==> chain[i] as object != n
      ensures timers as object != this
    {
    }

    /** scheduler_add_task */
    method Add(ctxt: nat, task: nat, prio: int, now: TimeVal)
      requires timers.Linked() && Chained()
      modifies this`entries, this`chain, chain, timers, timers.Nodes()
      ensures timers.Grown(old(timers.Nodes())) && Renewed(old(chain))
      ensures View() == AddTask(old(View()), id, Task(ctxt, task, prio), now)
    {
      hide SwitchedOn, Timers.Linked, DeleteTask, InsertTask;
      Apart();
      var first := Enter(Task(ctxt, task, prio));
      assert timers.View() == old(timers.View());
      if first {
        Apart();
        SwitchOn(now);
      }
    }

    /** One thing a client or the running task does. */
    method Perform(a: Action)
      requires timers.Linked() && Chained()
      modifies this`entries, this`chain, chain, timers, timers.Nodes()
      ensures timers.Grown(old(timers.Nodes())) && Renewed(old(chain))
      ensures View() == Act(old(View()), id, a)
    {
      hide Timers.Linked, DeleteTask, DeleteAll, AddTask, Do;
      Apart();
      match a {
        case Schedule(t, now) => Add(t.ctxt, t.task, t.prio, now);
        case Cancel(ctxt, task) => var _ := Delete(ctxt, task);
        case CancelAll(ctxt) => DeleteContext(ctxt);
        case OtherTimer(op) =>
          if op.timer != id {
            timers.Perform(op);
          }
      }
    }

    method PerformAll(actions: seq<Action>)
      requires timers.Linked() && Chained()
      modifies this`entries, this`chain, chain, timers, timers.Nodes()
      ensures timers.Grown(old(timers.Nodes())) && Renewed(old(chain))
      ensures View() == ActAll(old(View()), id, actions)
    {
      hide Timers.Linked, Timers.Nodes, TaskScheduler.View, Act, Chained;
      var i := 0;
      while i < |actions|
        invariant 0 <= i <= |actions|
        invariant timers.Grown(old(timers.Nodes())) && Renewed(old(chain))
        invariant ActAll(View(), id, actions[i..]) == ActAll(old(View()), id, actions)
      {
        assert actions[i..][1..] == actions[i + 1..];
        assert forall j :: 0 <= j < |chain| ==> chain[j] in chain;
        Perform(actions[i]);
        i := i + 1;
      }
    }

    /** The first entry is unlinked and freed. */
    method Pop() returns (t: Task)
      requires Chained() && entries != null
      modifies this`entries, this`chain
      ensures Chained() && forall n :: n in chain ==> n in old(chain)
      ensures old(Tasks()) != [] && t == old(Tasks())[0] && Tasks() == old(Tasks())[1..]
    {
      ChainTail(entries, chain);
      hide Chain, NoDup;
      t := entries.val;
      entries := entries.next;
      chain := chain[1..];
    }

    /** scheduler_callback; the task it runs performs `actions`. */
    method Fire(actions: seq<Action>)
      requires timers.Linked() && Chained()
      modifies this`entries, this`chain, chain, timers, timers.Nodes()
      ensures timers.Grown(old(timers.Nodes())) && Renewed(old(chain))
      ensures View() == Callback(old(View()), id, actions)
    {
      hide Timers.Linked, SwitchedOff, ActAll, Chain, NoDup, Vals;
      Apart();
      NoTask();
      if entries == null {
        SwitchOff();
        return;
      }
      var pe := Pop();
      assert timers.View() == old(timers.View());
      assert forall j :: 0 <= j < |chain| ==> chain[j] in chain;
      PerformAll(actions);
      NoTask();
      if entries == null {
        Apart();
        SwitchOff();
      }
    }
  }
}
