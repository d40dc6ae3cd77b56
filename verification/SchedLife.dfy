/** Birth, reparenting and death of tasks keep the invariant; a task is freed only
    when no CPU can still touch it. */
module SchedLife {
  import opened Prelude
  import opened SchedSpec
  import opened SchedProps
  import opened SchedSteps

  // ---- birth --------------------------------------------------------------------

  function Born(s: State, t: Ptr, ppid: nat): State {
    s.(tasks := s.tasks[t := Task(s.nextPid, ppid, Running, 0, 0, false, false)], nextPid := s.nextPid + 1,
       list := [t] + s.list)
  }

  lemma {:induction false} WithoutLast(q: seq<Ptr>, t: Ptr)
    requires t !in q
    ensures Without(q + [t], t) == q
  {
    if q == [] {
      assert [t][1..] == [];
    } else {
      WithoutLast(q[1..], t);
      assert (q + [t])[1..] == q[1..] + [t];
      assert q == [q[0]] + q[1..];
    }
  }

  lemma BornTask(s: State, t: Ptr, ppid: nat, x: Ptr)
    requires Inv(s) && t !in s.tasks && x in s.tasks
    ensures TaskOk(Born(s, t, ppid), x)
  {
    assert TaskOk(s, x);
  }

  lemma BornCpu(s: State, t: Ptr, ppid: nat, c: Cpu)
    requires Inv(s) && t !in s.tasks && c < |s.cpus|
    ensures CpuOk(Born(s, t, ppid), c)
    ensures t !in s.cpus[c].runq
  {
    assert CpuOk(s, c);
    assert t in s.cpus[c].runq ==> Lives(s, t, c);
    var r := Born(s, t, ppid);
    forall x | x in r.cpus[c].runq ensures Lives(r, x, c) { assert Lives(s, x, c); }
  }

  lemma BornFamily(s: State, t: Ptr, ppid: nat)
    requires Inv(s) && t !in s.tasks
    ensures FamilyOk(Born(s, t, ppid))
  {
    var r := Born(s, t, ppid);
    forall p | p in r.reaping ensures ReapOk(r, p) { assert ReapOk(s, p); }
    forall x | x in s.tasks ensures s.tasks[x].pid < s.nextPid { assert TaskOk(s, x); }
  }

  lemma BornLoose(s: State, t: Ptr, ppid: nat)
    requires Inv(s) && t !in s.tasks
    ensures Loose(Born(s, t, ppid), t)
  {
    var r := Born(s, t, ppid);
    forall x | x in r.tasks && x != t ensures TaskOk(r, x) { BornTask(s, t, ppid, x); }
    forall c | 0 <= c < |r.cpus| ensures CpuOk(r, c) { BornCpu(s, t, ppid, c); }
    BornCpu(s, t, ppid, 0);
    assert CpuOk(s, 0);
    BornFamily(s, t, ppid);
  }

  lemma RequeueIs(s: State, t: Ptr, c: Cpu, d: Cpu)
    requires t in s.tasks && !s.tasks[t].onRunq && !IsIdle(s.tasks[t])
    requires c < |s.cpus| && d < |s.cpus| && t !in s.cpus[c].runq
    ensures Push(Attach(s, t, c), t, d) == Attach(s, t, d)
  {
    var a := Push(Attach(s, t, c), t, d);
    var b := Attach(s, t, d);
    WithoutLast(s.cpus[c].runq, t);
    assert a.cpus == b.cpus;
    assert a.tasks == b.tasks;
  }

  /** The rebalancing after a fork leaves the child on exactly the queue it chose. */
  lemma SpawnIs(s: State, t: Ptr, ppid: nat, first: Cpu, final: Cpu)
    requires s.cpus != [] && t !in s.tasks && 0 < s.nextPid
    requires forall c :: 0 <= c < |s.cpus| ==> t !in s.cpus[c].runq
    ensures Spawn(s, t, ppid, first, final) == Attach(Born(s, t, ppid), t, Normal(s, final))
  {
    var f := Normal(s, first);
    var b := Born(s, t, ppid);
    var v := MarkReady(b.(list := s.list), t, first);
    assert v.(list := b.list) == Attach(b, t, f);
    RequeueIs(b, t, f, Normal(s, final));
  }

  lemma SpawnKeeps(s: State, t: Ptr, ppid: nat, first: Cpu, final: Cpu)
    requires Inv(s) && t !in s.tasks
    ensures Inv(Spawn(s, t, ppid, first, final))
  {
    forall c | 0 <= c < |s.cpus| ensures t !in s.cpus[c].runq { BornCpu(s, t, ppid, c); }
    SpawnIs(s, t, ppid, first, final);
    BornLoose(s, t, ppid);
    AttachKeeps(Born(s, t, ppid), t, Normal(s, final));
  }

  // ---- reparenting --------------------------------------------------------------

  lemma ReparentKeeps(s: State, e: Ptr)
    requires Inv(s) && e in s.tasks && !IsIdle(s.tasks[e]) && e !in s.reaping
    ensures Inv(Reparent(s, s.tasks[e].pid))
  {
    var r := Reparent(s, s.tasks[e].pid);
    forall x | x in r.tasks ensures TaskOk(r, x) { assert TaskOk(s, x); }
    forall c | 0 <= c < |r.cpus| ensures CpuOk(r, c) { ReparentCpu(s, s.tasks[e].pid, c); }
    ReparentFamily(s, e);
  }

  lemma ReparentCpu(s: State, pid: nat, c: Cpu)
    requires Inv(s) && c < |s.cpus|
    ensures CpuOk(Reparent(s, pid), c)
  {
    assert CpuOk(s, c);
    var r := Reparent(s, pid);
    forall x | x in r.cpus[c].runq ensures Lives(r, x, c) { assert Lives(s, x, c); }
  }

  lemma ReparentFamily(s: State, e: Ptr)
    requires FamilyOk(s) && e in s.tasks && !IsIdle(s.tasks[e]) && e !in s.reaping
    ensures FamilyOk(Reparent(s, s.tasks[e].pid))
  {
    var r := Reparent(s, s.tasks[e].pid);
    forall p | p in r.reaping ensures ReapOk(r, p) {
      assert ReapOk(s, p);
      assert p != e;
    }
  }

  // ---- death --------------------------------------------------------------------

  lemma FoundKeeps(s: State, p: Ptr, t: Ptr)
    requires Inv(s) && p in s.tasks && !IsIdle(s.tasks[p]) && ZombieChild(s, t, s.tasks[p].pid)
    ensures Inv(s.(reaping := s.reaping[p := t]))
  {
    var r := s.(reaping := s.reaping[p := t]);
    forall x | x in r.tasks ensures TaskOk(r, x) { assert TaskOk(s, x); }
    forall c | 0 <= c < |r.cpus| ensures CpuOk(r, c) { assert CpuOk(s, c); }
    forall q | q in r.reaping ensures ReapOk(r, q) { assert q != p ==> ReapOk(s, q); }
  }

  /** Freeing is safe: no CPU has the task as current, is leaving it, or executes on
      its stack; it is on no queue, and no other parent holds a pointer to it. */
  lemma FreedIsUnused(s: State, p: Ptr, t: Ptr)
    requires Inv(s) && p in s.reaping && s.reaping[p] == t && Frees(s, t)
    ensures forall c :: 0 <= c < |s.cpus| ==> s.cpus[c].current != t && s.cpus[c].from != Some(t) && s.stack[c] != t
    ensures forall c :: 0 <= c < |s.cpus| ==> s.cpus[c].idle != t && t !in s.cpus[c].runq
    ensures forall q :: q in s.reaping && q != p ==> s.reaping[q] != t
    ensures !IsIdle(s.tasks[t]) && !s.tasks[t].onRunq
  {
    assert TaskOk(s, t);
    forall c | 0 <= c < |s.cpus|
      ensures s.cpus[c].current != t && s.cpus[c].from != Some(t) && s.stack[c] != t
      ensures s.cpus[c].idle != t && t !in s.cpus[c].runq
    {
      assert CpuOk(s, c);
      assert t in s.cpus[c].runq ==> Lives(s, t, c);
    }
    forall q | q in s.reaping && q != p ensures s.reaping[q] != t {
      assert ReapOk(s, q) && ReapOk(s, p);
    }
  }

  lemma FreedCpu(s: State, p: Ptr, t: Ptr, c: Cpu)
    requires Inv(s) && p in s.reaping && s.reaping[p] == t && Frees(s, t) && c < |s.cpus|
    ensures CpuOk(Reap(s, p, t), c)
  {
    FreedIsUnused(s, p, t);
    assert CpuOk(s, c);
    var r := Reap(s, p, t);
    forall x | x in r.cpus[c].runq ensures Lives(r, x, c) { assert Lives(s, x, c); }
  }

  lemma FreedTask(s: State, p: Ptr, t: Ptr, x: Ptr)
    requires Inv(s) && p in s.reaping && s.reaping[p] == t && Frees(s, t) && x in s.tasks && x != t
    ensures TaskOk(Reap(s, p, t), x)
  {
    FreedIsUnused(s, p, t);
    WithoutIn(s.list, t);
    assert TaskOk(s, x);
  }

  lemma FreedFamily(s: State, p: Ptr, t: Ptr)
    requires Inv(s) && p in s.reaping && s.reaping[p] == t && Frees(s, t)
    ensures FamilyOk(Reap(s, p, t))
  {
    FreedIsUnused(s, p, t);
    var r := Reap(s, p, t);
    forall q | q in r.reaping ensures ReapOk(r, q) { assert ReapOk(s, q); }
  }

  lemma FreedKeeps(s: State, p: Ptr, t: Ptr)
    requires Inv(s) && p in s.reaping && s.reaping[p] == t && Frees(s, t)
    ensures Inv(Reap(s, p, t))
  {
    FreedIsUnused(s, p, t);
    WithoutIn(s.list, t);
    var r := Reap(s, p, t);
    forall x | x in r.tasks ensures TaskOk(r, x) { FreedTask(s, p, t, x); }
    forall c | 0 <= c < |r.cpus| ensures CpuOk(r, c) { FreedCpu(s, p, t, c); }
    FreedFamily(s, p, t);
  }

  lemma ReapKeeps(s: State, p: Ptr)
    requires Inv(s) && p in s.reaping && s.reaping[p] in s.tasks
    ensures Inv(Reap(s, p, s.reaping[p]))
  {
    var t := s.reaping[p];
    if Frees(s, t) {
      FreedKeeps(s, p, t);
    } else {
      var r := s.(reaping := s.reaping - {p});
      forall x | x in r.tasks ensures TaskOk(r, x) { assert TaskOk(s, x); }
      forall c | 0 <= c < |r.cpus| ensures CpuOk(r, c) { assert CpuOk(s, c); }
      forall q | q in r.reaping ensures ReapOk(r, q) { assert ReapOk(s, q); }
    }
  }
}
