/** What every critical section and every switch keeps. */
module SchedProps {
  import opened Prelude
  import opened SchedSpec

  ghost predicate NoDup<T>(q: seq<T>) { forall i, j :: 0 <= i < j < |q| ==> q[i] != q[j] }

  // ---- the invariant ------------------------------------------------------------

  /** A task is READY exactly when it is on a run queue, and then on the queue of its
      affinity CPU; a running task is current there; `onCpu` says that the task is
      current or was just left. */
  ghost predicate TaskOk(s: State, t: Ptr)
    requires t in s.tasks
  {
    var k := s.tasks[t];
    && k.affinity < |s.cpus|
    && (k.onRunq <==> k.status == Ready)
    && (k.onRunq <==> t in s.cpus[k.affinity].runq)
    && (k.onCpu <==> s.cpus[k.affinity].current == t || s.cpus[k.affinity].from == Some(t))
    && (k.status == Running && !IsIdle(k) ==> s.cpus[k.affinity].current == t)
    && (IsIdle(k) ==> k.status != Ready && k.status != Zombie)
    && (t in s.list <==> !IsIdle(k))
    && k.pid < s.nextPid
  }

  ghost predicate Lives(s: State, t: Ptr, c: Cpu) { t in s.tasks && s.tasks[t].affinity == c }

  ghost predicate RefsOk(s: State, c: Cpu)
    requires c < |s.cpus| == |s.stack|
  {
    var l := s.cpus[c];
    && Lives(s, l.current, c)
    && Lives(s, l.idle, c) && IsIdle(s.tasks[l.idle])
    && (l.from.Some? ==> Lives(s, l.from.value, c) && l.from.value != l.current)
    && (s.stack[c] == l.current || l.from == Some(s.stack[c]))
  }

  ghost predicate QueueOk(s: State, c: Cpu)
    requires c < |s.cpus|
  {
    NoDup(s.cpus[c].runq) && forall t :: t in s.cpus[c].runq ==> Lives(s, t, c)
  }

  ghost predicate CpuOk(s: State, c: Cpu)
    requires c < |s.cpus| == |s.stack|
  {
    RefsOk(s, c) && QueueOk(s, c)
  }

  /** A parent's pointer to a dead child is to a live structure, its own child. */
  ghost predicate ReapOk(s: State, p: Ptr)
    requires p in s.reaping
  {
    var t := s.reaping[p];
    && p in s.tasks && !IsIdle(s.tasks[p])
    && t in s.tasks && s.tasks[t].ppid == s.tasks[p].pid
  }

  ghost predicate PidsApart(s: State) {
    forall t, u :: t in s.tasks && u in s.tasks && s.tasks[t].pid == s.tasks[u].pid && s.tasks[t].pid != 0 ==> t == u
  }

  ghost predicate FamilyOk(s: State) {
    PidsApart(s) && forall p :: p in s.reaping ==> ReapOk(s, p)
  }

  ghost predicate Shape(s: State) {
    s.cpus != [] && |s.stack| == |s.cpus| && !s.panicked && 0 < s.nextPid && NoDup(s.list)
    && (forall t :: t in s.list ==> t in s.tasks)
  }

  ghost predicate Inv(s: State) {
    && Shape(s)
    && (forall t :: t in s.tasks ==> TaskOk(s, t))
    && (forall c :: 0 <= c < |s.cpus| ==> CpuOk(s, c))
    && FamilyOk(s)
  }

  lemma SameFamily(s: State, r: State)
    requires FamilyOk(s) && r.tasks.Keys == s.tasks.Keys && r.reaping == s.reaping
    requires forall t :: t in s.tasks ==> r.tasks[t].pid == s.tasks[t].pid && r.tasks[t].ppid == s.tasks[t].ppid
    ensures FamilyOk(r)
  {
    forall p | p in r.reaping ensures ReapOk(r, p) { assert ReapOk(s, p); }
  }

  // ---- queues as sequences ------------------------------------------------------

  lemma {:induction false} WithoutIn<T>(q: seq<T>, t: T)
    requires NoDup(q)
    ensures NoDup(Without(q, t))
    ensures forall x :: x in Without(q, t) <==> x in q && x != t
  {
    if q != [] {
      WithoutIn(q[1..], t);
      assert q == [q[0]] + q[1..];
      if q[0] != t {
        var w := Without(q[1..], t);
        forall i, j | 0 <= i < j < |w| + 1 ensures ([q[0]] + w)[i] != ([q[0]] + w)[j] {
          if i == 0 { assert w[j - 1] in w; }
        }
      }
    }
  }

  lemma AppendIn(q: seq<Ptr>, t: Ptr)
    requires NoDup(q) && t !in q
    ensures NoDup(q + [t])
    ensures forall x :: x in q + [t] <==> x in q || x == t
  {
  }

  /** The queue of the task's own CPU is the only one that changes. */
  lemma RemoveCpus(s: State, t: Ptr, c: Cpu)
    requires s.cpus != [] && t in s.tasks && TaskOk(s, t) && c < |s.cpus|
    ensures var r := Remove(s, t);
            && r.cpus[c].runq == (if s.tasks[t].onRunq && c == s.tasks[t].affinity then Without(s.cpus[c].runq, t)
                                  else s.cpus[c].runq)
            && r.cpus[c] == s.cpus[c].(runq := r.cpus[c].runq)
            && r.tasks == s.tasks[t := s.tasks[t].(onRunq := false)]
            && r == s.(tasks := r.tasks, cpus := r.cpus)
  {
    var k := s.tasks[t];
    if !k.onRunq {
      assert k.(onRunq := false) == k;
      assert s.tasks[t := k] == s.tasks;
    }
  }

  // ---- a task taken off its queue -----------------------------------------------

  /** `t` is on no queue and its status is still to be decided. */
  ghost predicate LooseTask(s: State, t: Ptr)
    requires t in s.tasks
  {
    var k := s.tasks[t];
    && k.affinity < |s.cpus|
    && !k.onRunq && t !in s.cpus[k.affinity].runq
    && (k.onCpu <==> s.cpus[k.affinity].current == t || s.cpus[k.affinity].from == Some(t))
    && (t in s.list <==> !IsIdle(k))
    && k.pid < s.nextPid
  }

  ghost predicate Loose(s: State, t: Ptr) {
    && Shape(s)
    && t in s.tasks && LooseTask(s, t)
    && (forall x :: x in s.tasks && x != t ==> TaskOk(s, x))
    && (forall c :: 0 <= c < |s.cpus| ==> CpuOk(s, c))
    && FamilyOk(s)
  }

  /** The statuses `t` may be given while it is on no queue. */
  ghost predicate MaySettle(s: State, t: Ptr, status: Status)
    requires t in s.tasks && s.tasks[t].affinity < |s.cpus|
  {
    && status != Ready
    && (status == Running && !IsIdle(s.tasks[t]) ==> s.cpus[s.tasks[t].affinity].current == t)
    && (status == Zombie ==> !IsIdle(s.tasks[t]))
  }

  lemma DetachTask(s: State, t: Ptr, x: Ptr)
    requires Inv(s) && t in s.tasks && x in s.tasks
    ensures x != t ==> TaskOk(Remove(s, t), x)
    ensures x == t ==> LooseTask(Remove(s, t), x)
  {
    assert TaskOk(s, t) && TaskOk(s, x);
    var c := s.tasks[x].affinity;
    RemoveCpus(s, t, c);
    assert CpuOk(s, c);
    WithoutIn(s.cpus[c].runq, t);
  }

  lemma DetachCpu(s: State, t: Ptr, c: Cpu)
    requires Inv(s) && t in s.tasks && c < |s.cpus|
    ensures CpuOk(Remove(s, t), c)
  {
    assert TaskOk(s, t) && CpuOk(s, c);
    RemoveCpus(s, t, c);
    WithoutIn(s.cpus[c].runq, t);
  }

  lemma DetachLoose(s: State, t: Ptr)
    requires Inv(s) && t in s.tasks
    ensures Loose(Remove(s, t), t)
  {
    var r := Remove(s, t);
    assert TaskOk(s, t);
    RemoveCpus(s, t, 0);
    forall x | x in r.tasks ensures if x == t then LooseTask(r, x) else TaskOk(r, x) { DetachTask(s, t, x); }
    forall c | 0 <= c < |r.cpus| ensures CpuOk(r, c) { DetachCpu(s, t, c); }
    SameFamily(s, r);
  }

  lemma SettleCpu(s: State, t: Ptr, status: Status, wakeAt: nat, c: Cpu)
    requires Loose(s, t) && MaySettle(s, t, status) && c < |s.cpus|
    ensures CpuOk(SetTask(s, t, s.tasks[t].(status := status, wakeAt := wakeAt)), c)
  {
    var r := SetTask(s, t, s.tasks[t].(status := status, wakeAt := wakeAt));
    assert CpuOk(s, c);
    forall x | x in r.cpus[c].runq ensures Lives(r, x, c) { assert Lives(s, x, c); }
  }

  lemma Settle(s: State, t: Ptr, status: Status, wakeAt: nat)
    requires Loose(s, t) && MaySettle(s, t, status)
    ensures Inv(SetTask(s, t, s.tasks[t].(status := status, wakeAt := wakeAt)))
  {
    var r := SetTask(s, t, s.tasks[t].(status := status, wakeAt := wakeAt));
    forall x | x in r.tasks ensures TaskOk(r, x) { assert x != t ==> TaskOk(s, x); }
    forall c | 0 <= c < |r.cpus| ensures CpuOk(r, c) { SettleCpu(s, t, status, wakeAt, c); }
    SameFamily(s, r);
  }

  // ---- a task put on a queue ----------------------------------------------------

  /** The state after queueing a loose task on CPU `d`. */
  function Attach(s: State, t: Ptr, d: Cpu): State
    requires t in s.tasks && d < |s.cpus|
  {
    SetTask(SetQueue(s, d, s.cpus[d].runq + [t]), t,
            s.tasks[t].(status := Ready, wakeAt := 0, affinity := d, onRunq := true))
  }

  /** Queueing elsewhere than on its own CPU is for a task that runs nowhere. */
  ghost predicate MayQueue(s: State, t: Ptr, d: Cpu)
    requires t in s.tasks
  {
    d < |s.cpus| && !IsIdle(s.tasks[t]) && (d == s.tasks[t].affinity || !s.tasks[t].onCpu)
  }

  lemma AttachTask(s: State, t: Ptr, d: Cpu, x: Ptr)
    requires Loose(s, t) && MayQueue(s, t, d) && x in s.tasks
    ensures TaskOk(Attach(s, t, d), x)
  {
    assert x != t ==> TaskOk(s, x);
    assert CpuOk(s, d);
  }

  lemma AttachRefs(s: State, t: Ptr, d: Cpu, c: Cpu)
    requires Loose(s, t) && MayQueue(s, t, d) && c < |s.cpus|
    ensures RefsOk(Attach(s, t, d), c)
  {
    assert CpuOk(s, c) && LooseTask(s, t);
  }

  lemma AttachQueue(s: State, t: Ptr, d: Cpu, c: Cpu)
    requires Loose(s, t) && MayQueue(s, t, d) && c < |s.cpus|
    ensures QueueOk(Attach(s, t, d), c)
  {
    assert CpuOk(s, c) && LooseTask(s, t);
    var q := s.cpus[c].runq;
    assert t !in q;
    AppendIn(q, t);
  }

  lemma AttachKeeps(s: State, t: Ptr, d: Cpu)
    requires Loose(s, t) && MayQueue(s, t, d)
    ensures Inv(Attach(s, t, d))
  {
    var r := Attach(s, t, d);
    forall x | x in r.tasks ensures TaskOk(r, x) { AttachTask(s, t, d, x); }
    forall c | 0 <= c < |r.cpus| ensures CpuOk(r, c) { AttachRefs(s, t, d, c); AttachQueue(s, t, d, c); }
    SameFamily(s, r);
  }
}
