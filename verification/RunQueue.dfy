/** The per-CPU run queues as they are in memory: tasks linked through their own
    `prev` and `next` fields, with head, tail and count kept beside. */
module RunQueue {
  import opened SchedSpec
  import opened SchedProps

  class TaskNode {
    const pid: nat
    var status: Status
    var affinity: Cpu
    var onRunq: bool
    var prev: TaskNode?
    var next: TaskNode?

    constructor (id: nat, s: Status, cpu: Cpu)
      ensures pid == id && status == s && affinity == cpu && !onRunq && prev == null && next == null
    {
      pid, status, affinity, onRunq, prev, next := id, s, cpu, false, null, null;
    }
  }

  lemma {:induction false} WithoutAt<T>(q: seq<T>, i: nat)
    requires NoDup(q) && i < |q|
    ensures Without(q, q[i]) == q[..i] + q[i + 1..]
  {
    if i > 0 {
      WithoutAt(q[1..], i - 1);
      assert q[1..][..i - 1] == q[1..i] && q[..i] == [q[0]] + q[1..i];
    }
  }

  class Queue {
    var head: TaskNode?
    var tail: TaskNode?
    var count: nat
    /** The queued tasks, first to run first. */
    ghost var q: seq<TaskNode>

    ghost predicate Valid()
      reads this, q
    {
      && NoDup(q)
      && head == (if q == [] then null else q[0])
      && tail == (if q == [] then null else q[|q| - 1])
      && count == |q|
      && forall i :: 0 <= i < |q| ==> Linked(i)
    }

    ghost predicate Linked(i: nat)
      requires i < |q|
      reads this, q
    {
      && q[i].onRunq
      && q[i].prev == (if i == 0 then null else q[i - 1])
      && q[i].next == (if i + 1 == |q| then null else q[i + 1])
    }

    constructor ()
      ensures Valid() && q == []
    {
      head, tail, count, q := null, null, 0, [];
    }

    method UnlinkAt(t: TaskNode, ghost i: nat)
      requires Valid() && i < |q| && q[i] == t
      modifies this, q`prev, q`next, t`onRunq
      ensures Valid() && q == old(q[..i] + q[i + 1..])
      ensures !t.onRunq && t.prev == null && t.next == null
    {
      ghost var was := q;
      assert Linked(i);
      assert t.prev != null ==> t.prev == was[i - 1];
      assert t.next != null ==> t.next == was[i + 1];
      if t.prev != null { t.prev.next := t.next; } else { head := t.next; }
      if t.next != null { t.next.prev := t.prev; } else { tail := t.prev; }
      t.prev, t.next, t.onRunq := null, null, false;
      if count > 0 { count := count - 1; }
      q := was[..i] + was[i + 1..];
      forall j | 0 <= j < |q| ensures Linked(j) {
        var k := if j < i then j else j + 1;
        assert old(Linked(k));
      }
    }

    /** Take `t` out wherever it is. */
    method Unlink(t: TaskNode)
      requires Valid() && t in q
      modifies this, q`prev, q`next, t`onRunq
      ensures Valid() && q == Without(old(q), t)
      ensures forall x :: x in q ==> x in old(q) && x != t
      ensures !t.onRunq && t.prev == null && t.next == null
    {
      WithoutIn(q, t);
      ghost var i: nat :| i < |q| && q[i] == t;
      WithoutAt(q, i);
      UnlinkAt(t, i);
    }

    method Append(t: TaskNode)
      requires Valid() && t !in q
      modifies this, q`next, t`prev, t`next, t`onRunq
      ensures Valid() && q == old(q) + [t] && t.onRunq
      ensures head != null && tail != null
    {
      assert q != [] ==> Linked(|q| - 1);
      t.prev, t.next := tail, null;
      if tail != null { tail.next := t; } else { head := t; }
      tail := t;
      t.onRunq := true;
      count := count + 1;
      q := q + [t];
      forall j | 0 <= j < |q| ensures Linked(j) {
        if j + 1 < |q| { assert old(Linked(j)); }
      }
    }
  }

  /** The queues of all CPUs. */
  class RunQueues {
    const queues: seq<Queue>
    /** The task structures the queues may link. */
    ghost var nodes: set<TaskNode>

    ghost predicate Valid()
      reads this, queues, nodes
    {
      && queues != []
      && (forall i, j :: 0 <= i < j < |queues| ==> queues[i] != queues[j])
      && (forall i :: 0 <= i < |queues| ==> InNodes(i) && queues[i].Valid() && Homed(i))
    }

    ghost predicate InNodes(i: nat)
      requires i < |queues|
      reads this, queues[i]
    {
      forall t :: t in queues[i].q ==> t in nodes
    }

    /** Every task on queue `i` is ready, not an idle task, and of this CPU. */
    ghost predicate Homed(i: nat)
      requires i < |queues|
      reads this, queues[i], queues[i].q
    {
      forall t :: t in queues[i].q ==> t.affinity == i && t.status == Ready && t.pid != 0
    }

    function Normal(c: Cpu): Cpu { if c >= |queues| then 0 else c }

    /** The task's own mark says whether it is queued, and where. */
    ghost predicate Marked(t: TaskNode)
      requires queues != []
      reads this, queues, t
    {
      t.onRunq <==> t in queues[Normal(t.affinity)].q
    }

    constructor (n: nat)
      requires 0 < n
      ensures Valid() && |queues| == n && nodes == {}
      ensures forall i :: 0 <= i < n ==> fresh(queues[i]) && queues[i].q == []
    {
      var qs: seq<Queue> := [];
      while |qs| < n
        invariant |qs| <= n
        invariant forall i :: 0 <= i < |qs| ==> fresh(qs[i]) && qs[i].Valid() && qs[i].q == []
        invariant forall i, j :: 0 <= i < j < |qs| ==> qs[i] != qs[j]
        decreases n - |qs|
      {
        var queue := new Queue();
        qs := qs + [queue];
      }
      queues := qs;
      nodes := {};
    }

    method Remove(t: TaskNode)
      requires Valid() && Marked(t)
      modifies queues, nodes`prev, nodes`next, t`onRunq
      ensures Valid() && !t.onRunq
      ensures forall i :: 0 <= i < |queues| ==>
                queues[i].q == if old(t.onRunq) && i == Normal(t.affinity) then Without(old(queues[i].q), t)
                  else old(queues[i].q)
    {
      if !t.onRunq { return; }
      var c := Normal(t.affinity);
      assert Homed(c) && InNodes(c);
      assert t.status == Ready;
      queues[c].Unlink(t);
      assert Homed(c) && InNodes(c);
      forall i | 0 <= i < |queues| && i != c ensures queues[i].Valid() && Homed(i) && InNodes(i) {
        assert queues[i] != queues[c];
        assert old(queues[i].Valid() && Homed(i) && InNodes(i));
        assert forall x :: x in queues[i].q ==> x !in old(queues[c].q) && unchanged(x);
        forall j | 0 <= j < |queues[i].q| ensures queues[i].Linked(j) {
          assert old(queues[i].Linked(j)) && queues[i].q[j] in queues[i].q;
        }
      }
    }

    /** Queue `t` at the back of CPU `c`, taking it off its old queue first. */
    method Push(t: TaskNode, c: Cpu)
      requires Valid() && Marked(t) && t.status == Ready
      modifies this`nodes, queues, nodes`prev, nodes`next, t
      ensures Valid() && t.status == Ready
      ensures t.pid == 0 ==> forall i :: 0 <= i < |queues| ==> queues[i].q == old(queues[i].q)
      ensures t.pid != 0 ==> t.onRunq && t.affinity == Normal(c)
      ensures t.pid != 0 ==>
                forall i :: 0 <= i < |queues| ==>
                  queues[i].q == old(Taken(t, i)) + (if i == Normal(c) then [t] else [])
    {
      if t.pid == 0 { return; }
      Remove(t);
      Place(t, Normal(c));
    }

    /** Queue `i` once `t` is off it. */
    ghost function Taken(t: TaskNode, i: nat): seq<TaskNode>
      requires i < |queues|
      reads this, queues, t
    {
      if t.onRunq && i == Normal(t.affinity) then Without(queues[i].q, t) else queues[i].q
    }

    method Place(t: TaskNode, d: Cpu)
      requires Valid() && !t.onRunq && d < |queues| && t.status == Ready && t.pid != 0
      modifies this`nodes, queues[d], queues[d].q`next, t
      ensures Valid() && t.status == Ready && t.onRunq && t.affinity == d
      ensures forall i :: 0 <= i < |queues| ==> queues[i].q == old(queues[i].q) + (if i == d then [t] else [])
    {
      forall i | 0 <= i < |queues| ensures t !in queues[i].q {
        forall j | 0 <= j < |queues[i].q| ensures queues[i].q[j] != t { assert queues[i].Linked(j); }
      }
      t.affinity := d;
      nodes := nodes + {t};
      queues[d].Append(t);
      assert Homed(d) && InNodes(d);
      forall i | 0 <= i < |queues| && i != d ensures queues[i].Valid() && Homed(i) && InNodes(i) {
        assert queues[i] != queues[d];
        assert old(queues[i].Valid() && Homed(i) && InNodes(i));
        assert forall x :: x in queues[i].q ==> x !in old(queues[d].q) && unchanged(x);
        forall j | 0 <= j < |queues[i].q| ensures queues[i].Linked(j) {
          assert old(queues[i].Linked(j)) && queues[i].q[j] in queues[i].q;
        }
      }
    }

    /** The first task of CPU `c`, if any, off its queue. */
    method Pop(c: Cpu) returns (t: TaskNode?)
      requires Valid() && c < |queues|
      modifies queues, nodes`prev, nodes`next, nodes`onRunq
      ensures Valid()
      ensures t == null <==> old(queues[c].q) == []
      ensures t != null ==> t == old(queues[c].q)[0] && queues[c].q == old(queues[c].q)[1..] && !t.onRunq
      ensures forall i :: 0 <= i < |queues| && (i != c || t == null) ==> queues[i].q == old(queues[i].q)
    {
      t := queues[c].head;
      if t == null { return; }
      assert Homed(c) && InNodes(c) && queues[c].Linked(0);
      assert t in queues[c].q;
      Remove(t);
    }
  }
}
