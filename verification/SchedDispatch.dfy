/** A queued task is dispatched after as many reschedules of its CPU as there are
    tasks ahead of it, plus one. */
module SchedDispatch {
  import opened Prelude
  import opened SchedSpec
  import opened SchedProps
  import opened SchedSteps
  import opened SchedLife
  import opened SchedRun

  /** The number of tasks ahead of `t`. */
  function Ahead(q: seq<Ptr>, t: Ptr): nat {
    if q == [] || q[0] == t then 0 else 1 + Ahead(q[1..], t)
  }

  lemma {:induction false} AheadWithout(q: seq<Ptr>, t: Ptr, x: Ptr)
    requires t in q && x != t
    ensures t in Without(q, x) && Ahead(Without(q, x), t) <= Ahead(q, t)
  {
    if q[0] != t {
      if q[0] == x {
        assert t in q[1..];
      } else {
        AheadWithout(q[1..], t, x);
        assert ([q[0]] + Without(q[1..], x))[1..] == Without(q[1..], x);
      }
    }
  }

  lemma {:induction false} AheadAppend(q: seq<Ptr>, t: Ptr, x: Ptr)
    requires t in q
    ensures t in q + [x] && Ahead(q + [x], t) == Ahead(q, t)
  {
    if q[0] != t {
      AheadAppend(q[1..], t, x);
      assert (q + [x])[1..] == q[1..] + [x];
    }
  }

  /** `t` waits on CPU `c` behind at most `k` tasks. */
  ghost predicate Waits(s: State, t: Ptr, c: Cpu, k: nat) {
    && t in s.tasks && s.tasks[t].status == Ready && s.tasks[t].affinity == c
    && c < |s.cpus| && t in s.cpus[c].runq && Ahead(s.cpus[c].runq, t) <= k
  }

  lemma RemoveWaits(s: State, x: Ptr, t: Ptr, c: Cpu, k: nat)
    requires s.cpus != [] && x in s.tasks && TaskOk(s, x) && Waits(s, t, c, k) && x != t
    ensures Waits(Remove(s, x), t, c, k)
  {
    RemoveCpus(s, x, c);
    AheadWithout(s.cpus[c].runq, t, x);
  }

  lemma AttachWaits(s: State, x: Ptr, d: Cpu, t: Ptr, c: Cpu, k: nat)
    requires x in s.tasks && d < |s.cpus| && Waits(s, t, c, k) && x != t
    ensures Waits(Attach(s, x, d), t, c, k)
  {
    AheadAppend(s.cpus[c].runq, t, x);
  }

  lemma MarkReadyWaits(s: State, x: Ptr, d: Cpu, t: Ptr, c: Cpu, k: nat)
    requires Inv(s) && x in s.tasks && d < |s.cpus| && Waits(s, t, c, k) && x != t
    ensures Waits(MarkReady(s, x, d), t, c, k)
  {
    if !IsIdle(s.tasks[x]) && s.tasks[x].status != Zombie {
      assert TaskOk(s, x);
      MarkReadyIs(s, x, d);
      RemoveWaits(s, x, t, c, k);
      AttachWaits(Remove(s, x), x, d, t, c, k);
    }
  }

  lemma WakeWaits(s: State, x: Ptr, t: Ptr, c: Cpu, k: nat)
    requires Inv(s) && x in s.tasks && Waits(s, t, c, k) && x != t
    ensures Waits(Wake(s, x), t, c, k)
  {
    assert TaskOk(s, x);
    ClearWakeAt(s, x);
    if s.tasks[x].status != Zombie {
      MarkReadyWaits(SetTask(s, x, s.tasks[x].(wakeAt := 0)), x, s.tasks[x].affinity, t, c, k);
    }
  }

  lemma {:induction false} PollWaits(s: State, rest: seq<Ptr>, now: nat, t: Ptr, c: Cpu, k: nat)
    requires Inv(s) && (forall x :: x in rest ==> x in s.tasks) && Waits(s, t, c, k)
    ensures Waits(PollSleep(s, rest, now), t, c, k)
    decreases |rest|
  {
    if rest != [] {
      var due := Due(s.tasks[rest[0]], now);
      if due {
        WakeWaits(s, rest[0], t, c, k);
        WakeKeeps(s, rest[0]);
      }
      PollWaits(if due then Wake(s, rest[0]) else s, rest[1..], now, t, c, k);
    }
  }

  lemma MarkWaits(s: State, x: Ptr, status: Status, wakeAt: nat, t: Ptr, c: Cpu, k: nat)
    requires Inv(s) && x in s.tasks && Waits(s, t, c, k) && x != t
    ensures Waits(Mark(s, x, status, wakeAt), t, c, k)
  {
    assert TaskOk(s, x);
    RemoveWaits(s, x, t, c, k);
  }

  lemma SpawnWaits(s: State, x: Ptr, ppid: nat, first: Cpu, final: Cpu, t: Ptr, c: Cpu, k: nat)
    requires Inv(s) && x !in s.tasks && Waits(s, t, c, k)
    ensures Waits(Spawn(s, x, ppid, first, final), t, c, k)
  {
    forall d | 0 <= d < |s.cpus| ensures x !in s.cpus[d].runq { BornCpu(s, x, ppid, d); }
    SpawnIs(s, x, ppid, first, final);
    AttachWaits(Born(s, x, ppid), x, Normal(s, final), t, c, k);
  }

  // ---- rescheduling -------------------------------------------------------------

  lemma DispatchWaits(s: State, d: Cpu, next: Ptr, t: Ptr, c: Cpu, k: nat)
    requires Loose(s, next) && MayTurn(s, d, next) && Lives(s, s.cpus[d].current, d)
    requires Waits(s, t, c, k) && next != t
    ensures Waits(Dispatch(s, d, next), t, c, k)
  {
    var prev := s.cpus[d].current;
    var u := s.tasks[prev];
    assert TaskOk(s, prev);
    if u.status == Running && !IsIdle(u) {
      DispatchIs(s, d, next);
      AttachWaits(Turn(s, d, next), prev, d, t, c, k);
    }
  }

  ghost predicate Runs(s: State, t: Ptr) { t in s.tasks && s.tasks[t].status == Running }

  /** A reschedule of another CPU does not push `t` back; one of its own CPU runs it
      if it is first, and moves it up otherwise. */
  lemma ScheduleWaits(s: State, d: Cpu, t: Ptr, c: Cpu, k: nat)
    requires Inv(s) && d < |s.cpus| && s.cpus[d].from.None? && CpuOk(s, d) && Executes(s, d)
    requires Waits(s, t, c, k)
    ensures Waits(Schedule(s, d), t, c, k) || Runs(Schedule(s, d), t)
    ensures d == c && k > 0 ==> Waits(Schedule(s, d), t, c, k - 1) || Runs(Schedule(s, d), t)
    ensures d == c && k == 0 ==> Runs(Schedule(s, d), t)
  {
    var q := s.cpus[d].runq;
    if q == [] {
      var idle := s.cpus[d].idle;
      assert TaskOk(s, idle) && TaskOk(s, t) && TaskOk(s, s.cpus[d].current);
      if s.tasks[s.cpus[d].current].status != Running && idle != s.cpus[d].current {
        OffQueueIsLoose(s, idle);
        DispatchWaits(s, d, idle, t, c, k);
      }
    } else {
      PopWaits(s, d, t, c, k);
    }
  }

  ghost predicate MayPop(s: State, d: Cpu) {
    && Inv(s) && d < |s.cpus| && s.cpus[d].from.None? && CpuOk(s, d) && Executes(s, d) && s.cpus[d].runq != []
  }

  /** The schedule of a CPU with a queue, once its head is taken off. */
  lemma PopIs(s: State, d: Cpu)
    requires MayPop(s, d)
    ensures var next := s.cpus[d].runq[0];
            && Lives(s, next, d) && TaskOk(s, next)
            && var u := Remove(s, next);
            Schedule(s, d) == (if next == s.cpus[d].current then SetTask(u, next, u.tasks[next].(status := Running))
                               else Dispatch(u, d, next))
  {
    var next := s.cpus[d].runq[0];
    assert next in s.cpus[d].runq;
    assert Lives(s, next, d) && TaskOk(s, next);
    RemoveCpus(s, next, d);
  }

  lemma PopRuns(s: State, d: Cpu)
    requires MayPop(s, d)
    ensures Runs(Schedule(s, d), s.cpus[d].runq[0])
  {
    PopIs(s, d);
  }

  lemma PopKeepsWaiting(s: State, d: Cpu, t: Ptr, c: Cpu, m: nat)
    requires MayPop(s, d) && s.cpus[d].runq[0] != t && s.cpus[d].runq[0] in s.tasks
    requires Waits(Remove(s, s.cpus[d].runq[0]), t, c, m)
    ensures Waits(Schedule(s, d), t, c, m)
  {
    var next := s.cpus[d].runq[0];
    PopIs(s, d);
    DetachLoose(s, next);
    RemoveCpus(s, next, d);
    if next != s.cpus[d].current { DispatchWaits(Remove(s, next), d, next, t, c, m); }
  }

  lemma HeadOffMovesUp(s: State, t: Ptr, c: Cpu, k: nat)
    requires Waits(s, t, c, k) && s.cpus[c].runq[0] != t
    requires s.cpus[c].runq[0] in s.tasks && TaskOk(s, s.cpus[c].runq[0]) && s.tasks[s.cpus[c].runq[0]].affinity == c
    ensures k > 0 && Waits(Remove(s, s.cpus[c].runq[0]), t, c, k - 1)
  {
    RemoveCpus(s, s.cpus[c].runq[0], c);
  }

  lemma PopWaits(s: State, d: Cpu, t: Ptr, c: Cpu, k: nat)
    requires MayPop(s, d) && Waits(s, t, c, k)
    ensures Waits(Schedule(s, d), t, c, k) || Runs(Schedule(s, d), t)
    ensures d == c && k > 0 ==> Waits(Schedule(s, d), t, c, k - 1) || Runs(Schedule(s, d), t)
    ensures d == c && k == 0 ==> Runs(Schedule(s, d), t)
  {
    var next := s.cpus[d].runq[0];
    PopIs(s, d);
    if next == t {
      PopRuns(s, d);
    } else if d == c {
      HeadOffMovesUp(s, t, c, k);
      PopKeepsWaiting(s, d, t, c, k - 1);
    } else {
      RemoveWaits(s, next, t, c, k);
      PopKeepsWaiting(s, d, t, c, k);
    }
  }

  // ---- runs ---------------------------------------------------------------------

  /** Steps that take `t` itself off its queue: a second wake-up, a kill, or its own
      mark when it has been woken before it switched away. */
  ghost predicate Disturbs(s: State, step: Step, t: Ptr) {
    step == WakeUp(t) || step == Kill(t)
    || (step.Sleep? && step.c < |s.cpus| && s.cpus[step.c].current == t)
  }

  lemma QuietWaits(s: State, step: Step, t: Ptr, c: Cpu, k: nat)
    requires Inv(s) && Enabled(s, step) && Waits(s, t, c, k)
    requires step.SwitchStacks? || step.Finish? || step.StayAwake? || step.Orphan? || step.FindChild?
    ensures Waits(Apply(s, step), t, c, k)
  {
    assert CpuOk(s, step.c);
    var r := Apply(s, step);
    assert r.cpus[c].runq == s.cpus[c].runq;
  }

  lemma StepWaits(s: State, step: Step, t: Ptr, c: Cpu, k: nat)
    requires Inv(s) && Enabled(s, step) && Waits(s, t, c, k) && !Disturbs(s, step, t) && !step.Yield?
    ensures Waits(Apply(s, step), t, c, k)
  {
    match step
    case WakeUp(x) => WakeWaits(s, x, t, c, k);
    case Tick(now) => PollWaits(s, s.list, now, t, c, k);
    case Sleep(d, io, w) =>
      assert CpuOk(s, d);
      MarkWaits(s, Current(s, d), if io then IoWait else Sleeping, w, t, c, k);
    case Kill(x) => MarkWaits(s, x, Zombie, s.tasks[x].wakeAt, t, c, k);
    case Fork(x, ppid, first, final) => SpawnWaits(s, x, ppid, first, final, t, c, k);
    case ReapChild(d) => ReapWaits(s, d, t, c, k);
    case _ => QuietWaits(s, step, t, c, k);
  }

  lemma ReapWaits(s: State, d: Cpu, t: Ptr, c: Cpu, k: nat)
    requires Inv(s) && Enabled(s, ReapChild(d)) && Waits(s, t, c, k)
    ensures Waits(Apply(s, ReapChild(d)), t, c, k)
  {
    assert ReapOk(s, Current(s, d));
    var x := s.reaping[Current(s, d)];
    if Frees(s, x) { FreedIsUnused(s, Current(s, d), x); }
  }

  ghost predicate Undisturbed(s: State, steps: seq<Step>, t: Ptr)
    requires AllEnabled(s, steps)
    decreases |steps|
  {
    steps == [] || (!Disturbs(s, steps[0], t) && Undisturbed(Apply(s, steps[0]), steps[1..], t))
  }

  /** `t` runs at some point of the run. */
  ghost predicate GetsToRun(s: State, steps: seq<Step>, t: Ptr)
    requires AllEnabled(s, steps)
    decreases |steps|
  {
    Runs(s, t) || (steps != [] && GetsToRun(Apply(s, steps[0]), steps[1..], t))
  }

  function Yields(steps: seq<Step>, c: Cpu): nat {
    if steps == [] then 0 else (if steps[0] == Yield(c) then 1 else 0) + Yields(steps[1..], c)
  }

  /** With `k` tasks ahead, `k + 1` reschedules of its CPU run the task, whatever the
      other CPUs, wakers, forkers and killers do in between. */
  lemma {:induction false} DispatchedInTurn(s: State, steps: seq<Step>, t: Ptr, c: Cpu, k: nat)
    requires Inv(s) && AllEnabled(s, steps) && Waits(s, t, c, k) && Undisturbed(s, steps, t)
    requires Yields(steps, c) >= k + 1
    ensures GetsToRun(s, steps, t)
    decreases |steps|
  {
    var r := Apply(s, steps[0]);
    StepKeeps(s, steps[0]);
    if steps[0].Yield? {
      var d := steps[0].c;
      assert CpuOk(s, d);
      ScheduleWaits(s, d, t, c, k);
      if !Runs(r, t) {
        DispatchedInTurn(r, steps[1..], t, c, if d == c then k - 1 else k);
      }
    } else {
      StepWaits(s, steps[0], t, c, k);
      DispatchedInTurn(r, steps[1..], t, c, k);
    }
  }
}
