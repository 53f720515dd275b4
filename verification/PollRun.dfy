/**
 * Whole runs of the poll table: operations by the program, polls, dispatch passes whose
 * callbacks operate on the table, and compactions, which the loop does when the counter is not 0.
 */
module PollRun {
  import opened PollTable

  /** An operation on the ordered map; registering a negative descriptor is no legal operation. */
  function Apply(m: seq<Item>, op: Op): seq<Item> {
    match op
    case OpRegister(sock, events, inst, callBack, stale) =>
      if sock >= 0 then Put(m, Item(Key(sock, inst, callBack), events)) else m
    case OpUnregister(sock, inst, callBack) => Remove(m, Key(sock, inst, callBack))
    case OpUnregisterObject(inst) => RemoveObject(m, inst)
  }

  function ApplyAll(m: seq<Item>, ops: seq<Op>): seq<Item>
    decreases |ops|
  {
    if ops == [] then m else ApplyAll(Apply(m, ops[0]), ops[1..])
  }

  lemma {:induction false} ApplyConcat(m: seq<Item>, a: seq<Op>, b: seq<Op>)
    ensures ApplyAll(m, a + b) == ApplyAll(ApplyAll(m, a), b)
    decreases |a|
  {
    hide Apply;
    if a == [] {
      assert a + b == b;
    } else {
      assert (a + b)[1..] == a[1..] + b;
      ApplyConcat(Apply(m, a[0]), a[1..], b);
    }
  }

  lemma DoRefines(t: Table, op: Op)
    requires Ok(t)
    ensures Ok(Do(t, op)) && Items(Do(t, op).slots) == Apply(Items(t.slots), op)
  {
    hide Ok, Items, Put, Remove, RemoveObject, Register, Unregister, UnregisterObject;
    match op
    case OpRegister(sock, events, inst, callBack, stale) =>
      if sock >= 0 {
        RegisterRefines(t, sock, events, inst, callBack, stale);
      }
    case OpUnregister(sock, inst, callBack) => UnregisterRefines(t, sock, inst, callBack);
    case OpUnregisterObject(inst) => UnregisterObjectRefines(t, inst);
  }

  lemma {:induction false} DoAllRefines(t: Table, ops: seq<Op>)
    requires Ok(t)
    ensures Ok(DoAll(t, ops)) && Items(DoAll(t, ops).slots) == ApplyAll(Items(t.slots), ops)
    decreases |ops|
  {
    hide Ok, Items, Do, Apply;
    if ops != [] {
      DoRefines(t, ops[0]);
      DoAllRefines(Do(t, ops[0]), ops[1..]);
    }
  }

  /** Only poll's results differ. */
  ghost predicate SameButPolled(t: Table, u: Table) {
    && |u.slots| == |t.slots| && u.defrag == t.defrag
    && forall i :: 0 <= i < |t.slots| ==> u.slots[i] == t.slots[i].(revents := u.slots[i].revents)
  }

  lemma {:induction false} PolledItems(s: seq<Slot>, r: seq<Slot>)
    requires |r| == |s| && forall i :: 0 <= i < |s| ==> r[i] == s[i].(revents := r[i].revents)
    ensures Items(r) == Items(s)
    decreases |s|
  {
    if s != [] {
      PolledItems(s[..|s| - 1], r[..|s| - 1]);
    }
  }

  lemma PolledOk(t: Table, u: Table)
    requires SameButPolled(t, u) && Ok(t)
    ensures Ok(u) && Items(u.slots) == Items(t.slots)
  {
    PolledItems(t.slots, u.slots);
    if HasTombstone(t.slots) {
      var i :| 0 <= i < |t.slots| && t.slots[i].fd == -1;
      assert u.slots[i].fd == -1;
    }
    hide Items;
  }

  lemma ServedRefines(t: Table, i: nat, ops: seq<Op>)
    requires Ok(t) && i < |t.slots|
    ensures var done := if EventsOf(t.slots[i].revents) != 0 then ops else [];
            Ok(Served(t, i, ops)) && Items(Served(t, i, ops).slots) == ApplyAll(Items(t.slots), done)
  {
    hide Ok, Items, EventsOf, DoAll;
    DoAllRefines(t, ops);
    var u := if EventsOf(t.slots[i].revents) != 0 then DoAll(t, ops) else t;
    assert SameButPolled(u, Served(t, i, ops));
    PolledOk(u, Served(t, i, ops));
  }

  /** What n callbacks from the k-th on did. */
  function Performed(script: Script, k: nat, n: nat): seq<Op>
    decreases n
  {
    if n == 0 then [] else script(k) + Performed(script, k + 1, n - 1)
  }

  /** A dispatch pass changes the map by exactly what its callbacks did, in order. */
  lemma {:induction false} DispatchRefines(t: Table, i: nat, nevents: nat, script: Script, k: nat)
    requires Ok(t)
    ensures var (u, calls) := Dispatch(t, i, nevents, script, k);
            Ok(u) && Items(u.slots) == ApplyAll(Items(t.slots), Performed(script, k, |calls|))
    decreases nevents, |t.slots| - i
  {
    hide Ok, Items, EventsOf, Served, Apply;
    if i < |t.slots| && nevents > 0 {
      if !Due(t.slots[i]) {
        DispatchRefines(t, i + 1, nevents, script, k);
      } else {
        var u := Served(t, i, script(k));
        ServedRefines(t, i, script(k));
        if EventsOf(t.slots[i].revents) == 0 {
          DispatchRefines(u, i + 1, nevents - 1, script, k);
        } else {
          DispatchRefines(u, i + 1, nevents - 1, script, k + 1);
          var n := |Dispatch(u, i + 1, nevents - 1, script, k + 1).1|;
          ApplyConcat(Items(t.slots), script(k), Performed(script, k + 1, n));
        }
      }
    }
  }

  // ----- runs

  datatype Event =
    | Operate(ops: seq<Op>)
    | Poll(revents: nat -> bits)
    | DispatchPass(nevents: nat, script: Script)
    | Compact

  /** The table, and every operation done so far. */
  datatype World = World(t: Table, history: seq<Op>)

  function Polled(t: Table, revents: nat -> bits): (u: Table)
    ensures SameButPolled(t, u)
  {
    t.(slots := seq(|t.slots|, i requires 0 <= i < |t.slots| => t.slots[i].(revents := revents(i))))
  }

  ghost function Step(w: World, e: Event): World {
    match e
    case Operate(ops) => World(DoAll(w.t, ops), w.history + ops)
    case Poll(revents) => World(Polled(w.t, revents), w.history)
    case DispatchPass(nevents, script) =>
      var r := Dispatch(w.t, 0, nevents, script, 0);
      World(r.0, w.history + Performed(script, 0, |r.1|))
    case Compact => World(if w.t.defrag > 0 then Defragment(w.t) else w.t, w.history)
  }

  ghost function Run(w: World, events: seq<Event>): World
    decreases |events|
  {
    if events == [] then w else Run(Step(w, events[0]), events[1..])
  }

  /** The table stands for the ordered map that the history makes. */
  ghost predicate Refines(w: World) {
    Ok(w.t) && Items(w.t.slots) == ApplyAll([], w.history)
  }

  lemma StepRefines(w: World, e: Event)
    requires Refines(w)
    ensures Refines(Step(w, e))
  {
    hide Ok, Items, Apply, ApplyAll, Dispatch, DoAll, Defragment;
    match e
    case Operate(ops) =>
      DoAllRefines(w.t, ops);
      ApplyConcat([], w.history, ops);
    case Poll(revents) =>
      PolledOk(w.t, Polled(w.t, revents));
    case DispatchPass(nevents, script) =>
      DispatchRefines(w.t, 0, nevents, script, 0);
      ApplyConcat([], w.history, Performed(script, 0, |Dispatch(w.t, 0, nevents, script, 0).1|));
    case Compact =>
      if w.t.defrag > 0 {
        DefragmentRefines(w.t);
      }
  }

  /**
   * In every run from the empty table the registrations are, in order, those of the ordered map
   * after the same operations; polls, passes and compactions add and lose nothing.
   */
  lemma {:induction false} RunRefines(w: World, events: seq<Event>)
    requires Refines(w)
    ensures Refines(Run(w, events))
    decreases |events|
  {
    hide Refines, Step;
    if events != [] {
      StepRefines(w, events[0]);
      RunRefines(Step(w, events[0]), events[1..]);
    }
  }

  // ----- the keys of the map

  lemma {:induction false} PutKeys(m: seq<Item>, item: Item)
    requires DistinctKeys(m)
    ensures DistinctKeys(Put(m, item))
    ensures forall x :: x in Put(m, item) ==> x == item || x in m
    decreases |m|
  {
    if m != [] && m[0].key != item.key {
      PutKeys(m[1..], item);
      assert forall x :: x in m[1..] ==> x.key != m[0].key;
    }
  }

  lemma {:induction false} RemoveKeys(m: seq<Item>, key: Key, inst: nat)
    requires DistinctKeys(m)
    ensures DistinctKeys(Remove(m, key)) && DistinctKeys(RemoveObject(m, inst))
    ensures forall x :: x in Remove(m, key) || x in RemoveObject(m, inst) ==> x in m
    decreases |m|
  {
    if m != [] {
      RemoveKeys(m[1..], key, inst);
      assert forall x :: x in m[1..] ==> x.key != m[0].key;
    }
  }

  lemma {:induction false} AppliedKeys(m: seq<Item>, ops: seq<Op>)
    requires DistinctKeys(m)
    ensures DistinctKeys(ApplyAll(m, ops))
    decreases |ops|
  {
    hide DistinctKeys, Put, Remove, RemoveObject;
    if ops != [] {
      match ops[0] {
        case OpRegister(sock, events, inst, callBack, stale) => PutKeys(m, Item(Key(sock, inst, callBack), events));
        case OpUnregister(sock, inst, callBack) => RemoveKeys(m, Key(sock, inst, callBack), 0);
        case OpUnregisterObject(inst) => RemoveKeys(m, Key(0, 0, 0), inst);
      }
      AppliedKeys(Apply(m, ops[0]), ops[1..]);
    }
  }

  lemma TableIsOrderedMap(events: seq<Event>)
    ensures var w := Run(World(Table([], 0), []), events);
            && Ok(w.t) && Items(w.t.slots) == ApplyAll([], w.history)
            && DistinctKeys(ApplyAll([], w.history))
  {
    var w := World(Table([], 0), []);
    assert Refines(w);
    AppliedKeys([], Run(w, events).history);
    hide Ok, Items, Apply, ApplyAll, Run, DistinctKeys;
    RunRefines(w, events);
  }
}
