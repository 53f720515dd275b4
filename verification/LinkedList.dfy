/**
 * Singly linked lists of structs: chains of nodes, and what linking a node in and bypassing
 * one do to them.
 */
module LinkedList {

  /** A struct with a `next` pointer; val is the rest of it. */
  class Node<T> {
    var val: T
    var next: Node?<T>

    constructor (val: T)
      ensures this.val == val && next == null
    {
      this.val, this.next := val, null;
    }
  }

  /** The structs' contents, along the chain. */
  ghost function Vals<T>(s: seq<Node<T>>): (v: seq<T>)
    reads s
    ensures |v| == |s|
    ensures forall i :: 0 <= i < |s| ==> v[i] == s[i].val
  {
    seq(|s|, i requires 0 <= i < |s| reads s => s[i].val)
  }

  /** Node i of the chain points to its neighbour. */
  ghost predicate Joined<T>(s: seq<Node<T>>, i: nat)
    requires i < |s|
    reads s`next
  {
    s[i].next == if i + 1 < |s| then s[i + 1] else null
  }

  /** Following `next` from head visits exactly the nodes of s and ends: no cycle. */
  ghost predicate Chain<T>(head: Node?<T>, s: seq<Node<T>>)
    reads s`next
  {
    && head == (if s == [] then null else s[0])
    && forall i :: 0 <= i < |s| ==> Joined(s, i)
  }

  ghost predicate NoDup<T>(s: seq<Node<T>>) {
    forall i, j :: 0 <= i < j < |s| ==> s[i] != s[j]
  }

  ghost function Spliced<T>(s: seq<Node<T>>, k: nat, e: Node<T>): seq<Node<T>>
    requires k <= |s|
  {
    s[..k] + [e] + s[k..]
  }

  /** Linking a node between two neighbours (or in front) lengthens the chain by it. */
  lemma ChainInserted<T>(head: Node?<T>, s: seq<Node<T>>, k: nat, e: Node<T>)
    requires k <= |s| && NoDup(s) && e !in s
    requires forall i :: 0 <= i < |s| && i + 1 != k ==> Joined(s, i)
    requires e.next == if k < |s| then s[k] else null
    requires k == 0 ==> head == e
    requires k > 0 ==> head == s[0] && s[k - 1].next == e
    ensures Chain(head, Spliced(s, k, e)) && NoDup(Spliced(s, k, e))
  {
    var r := Spliced(s, k, e);
    forall i | 0 <= i < |r|
      ensures Joined(r, i)
    {
      if i < k - 1 {
        assert r[i] == s[i] && r[i + 1] == s[i + 1];
        assert Joined(s, i);
      } else if i == k - 1 {
        assert r[i] == s[i] && r[i + 1] == e;
      } else if i == k {
        assert r[i] == e && (k < |s| ==> r[i + 1] == s[k]);
      } else {
        assert r[i] == s[i - 1] && (i < |s| ==> r[i + 1] == s[i]);
        assert Joined(s, i - 1);
      }
    }
  }

  ghost function Dropped<T>(s: seq<Node<T>>, k: nat): seq<Node<T>>
    requires k < |s|
  {
    s[..k] + s[k + 1..]
  }

  /** Bypassing node k takes it out of the chain. */
  lemma ChainDropped<T>(head: Node?<T>, s: seq<Node<T>>, k: nat)
    requires k < |s| && NoDup(s)
    requires forall i :: 0 <= i < |s| && i + 1 != k && i != k ==> Joined(s, i)
    requires k == 0 ==> head == if k + 1 < |s| then s[k + 1] else null
    requires k > 0 ==> head == s[0] && s[k - 1].next == if k + 1 < |s| then s[k + 1] else null
    ensures Chain(head, Dropped(s, k)) && NoDup(Dropped(s, k))
  {
    var r := Dropped(s, k);
    forall i | 0 <= i < |r|
      ensures Joined(r, i)
    {
      if i < k - 1 {
        assert Joined(s, i);
      } else if i == k - 1 {
        assert r[i] == s[k - 1] && (k < |r| ==> r[k] == s[k + 1]);
      } else {
        assert r[i] == s[i + 1] && (i + 1 < |r| ==> r[i + 1] == s[i + 2]);
        assert Joined(s, i + 1);
      }
    }
  }

  lemma DroppedSet<T>(s: seq<Node<T>>, k: nat)
    requires k < |s| && NoDup(s)
    ensures forall n :: n in Dropped(s, k) <==> n in s && n != s[k]
  {
    var r := Dropped(s, k);
    forall n | n in s && n != s[k]
      ensures n in r
    {
      var i :| 0 <= i < |s| && s[i] == n;
      assert r[if i < k then i else i - 1] == n;
    }
  }

  lemma ChainEmpty<T>(head: Node?<T>, s: seq<Node<T>>)
    requires Chain(head, s)
    ensures head == null <==> s == []
  {
  }

  /** Past the head, the rest of a chain is a chain. */
  lemma ChainTail<T>(head: Node?<T>, s: seq<Node<T>>)
    requires Chain(head, s) && NoDup(s) && s != []
    ensures head == s[0] && Chain(s[0].next, s[1..]) && NoDup(s[1..])
    ensures forall n :: n in s[1..] <==> n in s && n != s[0]
    ensures Vals(s[1..]) == Vals(s)[1..]
  {
    assert Joined(s, 0);
    assert s[1..] == Dropped(s, 0);
    ChainDropped(s[0].next, s, 0);
    DroppedSet(s, 0);
  }

  /** Link a node after node k - 1 of the chain, or in front when there is none. */
  method LinkAfter<T>(head: Node?<T>, ep: Node?<T>, entry: Node<T>, ghost s: seq<Node<T>>, ghost k: nat) returns (head': Node<T>)
    requires Chain(head, s) && NoDup(s) && entry !in s
    requires k <= |s| && ep == if k == 0 then null else s[k - 1]
    modifies s`next, entry`next
    ensures Chain(head', Spliced(s, k, entry)) && NoDup(Spliced(s, k, entry))
  {
    if ep == null {
      entry.next := head;
      head' := entry;
    } else {
      assert Joined(s, k - 1);
      entry.next := ep.next;
      ep.next := entry;
      head' := head;
    }
    forall i | 0 <= i < |s| && i + 1 != k
      ensures Joined(s, i)
    {
      assert old(Joined(s, i));
    }
    ChainInserted(head', s, k, entry);
  }

  /** Link a node in front of the chain. */
  method Push<T>(head: Node?<T>, entry: Node<T>, ghost s: seq<Node<T>>)
    requires Chain(head, s) && NoDup(s) && entry !in s
    modifies entry`next
    ensures Chain(entry, [entry] + s) && NoDup([entry] + s)
  {
    entry.next := head;
    forall i | 0 <= i < |s|
      ensures Joined(s, i)
    {
      assert old(Joined(s, i));
    }
    assert Spliced(s, 0, entry) == [entry] + s;
    ChainInserted(entry, s, 0, entry);
  }

  /** Take node k, which follows pp or is the head, out of the chain. */
  method Bypass<T>(head: Node<T>, pp: Node?<T>, entry: Node<T>, ghost s: seq<Node<T>>, ghost k: nat) returns (head': Node?<T>)
    requires Chain(head, s) && NoDup(s)
    requires k < |s| && entry == s[k] && pp == if k == 0 then null else s[k - 1]
    modifies s`next
    ensures Chain(head', Dropped(s, k)) && NoDup(Dropped(s, k))
    ensures forall n :: n in Dropped(s, k) <==> n in s && n != entry
  {
    assert Joined(s, k);
    head' := head;
    if pp == null {
      head' := entry.next;
    } else {
      pp.next := entry.next;
    }
    forall i | 0 <= i < |s| && i + 1 != k && i != k
      ensures Joined(s, i)
    {
      assert old(Joined(s, i));
    }
    ChainDropped(head', s, k);
    DroppedSet(s, k);
  }
}
