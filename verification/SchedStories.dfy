/** The scheduler's critical sections task by task, and what they add up to: a sleep taken
    back leaves no trace, and a task that exits leaves its CPU and is freed by its parent. */
module SchedStories {
  import opened Prelude
  import opened SchedSpec
  import opened SchedProps
  import opened SchedSteps
  import opened SchedLife
  import opened SchedEffects
  import R = SchedRun

  // ---- a sleep taken back -------------------------------------------------------

  /** Cancelling makes a task that was marked asleep run again, without a deadline and
      without queueing it; any other task is left as it is. */
  lemma CancelEffect(s: State, t: Ptr)
    requires t in s.tasks
    ensures var k := s.tasks[t]; var r := CancelSleep(s, t);
            && r.tasks.Keys == s.tasks.Keys && r == s.(tasks := r.tasks)
            && (forall x :: x in s.tasks && x != t ==> r.tasks[x] == s.tasks[x])
            && (if k.status == Sleeping || k.status == IoWait
                then r.tasks[t].status == Running && r.tasks[t].wakeAt == 0
                     && r.tasks[t].(status := k.status, wakeAt := k.wakeAt) == k
                else r.tasks[t] == k)
  {
  }

  lemma WithoutSame(s: State, c: Cpu)
    requires Inv(s) && c < |s.cpus| && Cur(s, c) in s.tasks && s.tasks[Cur(s, c)].status == Running
    ensures TaskOk(s, Cur(s, c)) && forall d :: 0 <= d < |s.cpus| ==> Cur(s, c) !in s.cpus[d].runq
  {
    var t := Cur(s, c);
    assert CpuOk(s, c) && TaskOk(s, t);
    forall d | 0 <= d < |s.cpus| ensures t !in s.cpus[d].runq {
      assert CpuOk(s, d);
      assert t in s.cpus[d].runq ==> Lives(s, t, d);
    }
  }

  function Cur(s: State, c: Cpu): (t: Ptr)
    requires c < |s.cpus|
    ensures t == s.cpus[c].current
  {
    s.cpus[c].current
  }

  /** A running task that marks itself asleep and then cancels is as it was before, with no
      deadline, and so is everything else. */
  lemma CancelUndoesSleep(s: State, c: Cpu, io: bool, wakeAt: nat)
    requires Inv(s) && R.Executes(s, c) && Cur(s, c) in s.tasks && s.tasks[Cur(s, c)].status == Running
    ensures R.Enabled(s, R.Sleep(c, io, wakeAt))
    ensures var m := R.Apply(s, R.Sleep(c, io, wakeAt));
            && R.Enabled(m, R.StayAwake(c))
            && R.Apply(m, R.StayAwake(c)) == SetTask(s, Cur(s, c), s.tasks[Cur(s, c)].(wakeAt := 0))
  {
    var t := Cur(s, c);
    WithoutSame(s, c);
    var status := if io then IoWait else Sleeping;
    var m := Mark(s, t, status, wakeAt);
    assert Remove(s, t) == s;
    assert m == SetTask(s, t, s.tasks[t].(status := status, wakeAt := wakeAt));
    CancelEffect(m, t);
    var r := CancelSleep(m, t);
    assert r.tasks == s.tasks[t := s.tasks[t].(wakeAt := 0)];
  }

  /** A running task at a reschedule: with nobody waiting it goes on, and otherwise it goes
      to the back of its queue. */
  lemma RunningGoesOn(s: State, c: Cpu)
    requires MaySchedule(s, c) && Cur(s, c) in s.tasks && s.tasks[Cur(s, c)].status == Running
    requires !IsIdle(s.tasks[Cur(s, c)])
    ensures var t, q, r := Cur(s, c), s.cpus[c].runq, Schedule(s, c);
            && |r.cpus| == |s.cpus|
            && (if q == [] then r.cpus[c].current == t
                else r.cpus[c].current == q[0] && r.cpus[c].runq == q[1..] + [t])
  {
    WithoutSame(s, c);
    ScheduleRunsTheChoice(s, c, c);
  }

  /** A task that blocked is neither chosen nor queued. */
  lemma BlockedIsLeft(s: State, c: Cpu)
    requires MaySchedule(s, c) && Cur(s, c) in s.tasks && !IsIdle(s.tasks[Cur(s, c)])
    requires s.tasks[Cur(s, c)].status != Running && s.tasks[Cur(s, c)].status != Ready
    ensures var t, r := Cur(s, c), Schedule(s, c);
            && |r.cpus| == |s.cpus|
            && r.cpus[c].current != t && t !in r.cpus[c].runq && r.cpus[c].from == Some(t)
  {
    var t, q := Cur(s, c), s.cpus[c].runq;
    assert TaskOk(s, t) && CpuOk(s, c);
    ScheduleRunsTheChoice(s, c, c);
    assert t !in q;
    assert forall x :: x in NextQueue(s, c) ==> x in q;
  }

  lemma MarkedMaySchedule(s: State, c: Cpu, status: Status, wakeAt: nat)
    requires MaySchedule(s, c) && Cur(s, c) in s.tasks
    requires status == Sleeping || status == IoWait || (status == Zombie && !IsIdle(s.tasks[Cur(s, c)]))
    ensures var m := Mark(s, Cur(s, c), status, wakeAt);
            && MaySchedule(m, c) && |m.cpus| == |s.cpus| && Cur(m, c) == Cur(s, c)
            && m.list == s.list && m.reaping == s.reaping && m.stack == s.stack && m.tasks.Keys == s.tasks.Keys
            && m.tasks[Cur(s, c)] == s.tasks[Cur(s, c)].(status := status, wakeAt := wakeAt, onRunq := false)
  {
    var t := Cur(s, c);
    assert TaskOk(s, t);
    MarkKeeps(s, t, status, wakeAt);
    RemoveCpus(s, t, c);
    assert CpuOk(Mark(s, t, status, wakeAt), c);
  }

  /** So the next reschedule treats a task that cancelled its sleep as runnable; without the
      cancel it would be left. */
  lemma CancelledGoesOn(s: State, c: Cpu, io: bool, wakeAt: nat)
    requires MaySchedule(s, c) && Cur(s, c) in s.tasks && s.tasks[Cur(s, c)].status == Running
    requires !IsIdle(s.tasks[Cur(s, c)])
    ensures var t, q := Cur(s, c), s.cpus[c].runq;
            var m := Mark(s, t, if io then IoWait else Sleeping, wakeAt);
            && t in m.tasks
            && var r := CancelSleep(m, t);
            && MaySchedule(r, c) && MaySchedule(m, c) && |Schedule(r, c).cpus| == |Schedule(m, c).cpus| == |s.cpus|
            && (if q == [] then Schedule(r, c).cpus[c].current == t
                else Schedule(r, c).cpus[c].current == q[0] && Schedule(r, c).cpus[c].runq == q[1..] + [t])
            && Schedule(m, c).cpus[c].current != t && t !in Schedule(m, c).cpus[c].runq
  {
    var t := Cur(s, c);
    var m := Mark(s, t, if io then IoWait else Sleeping, wakeAt);
    MarkedMaySchedule(s, c, if io then IoWait else Sleeping, wakeAt);
    BlockedIsLeft(m, c);
    CancelledRuns(s, c, io, wakeAt);
    RunningGoesOn(CancelSleep(m, t), c);
  }

  lemma CancelledRuns(s: State, c: Cpu, io: bool, wakeAt: nat)
    requires MaySchedule(s, c) && Cur(s, c) in s.tasks && s.tasks[Cur(s, c)].status == Running
    ensures var t := Cur(s, c);
            var m := Mark(s, t, if io then IoWait else Sleeping, wakeAt);
            && t in m.tasks
            && var r := CancelSleep(m, t);
            && MaySchedule(r, c) && r.cpus == s.cpus && t in r.tasks && r.tasks[t] == s.tasks[t].(wakeAt := 0)
  {
    var t := Cur(s, c);
    MarkedMaySchedule(s, c, if io then IoWait else Sleeping, wakeAt);
    CancelUndoesSleep(s, c, io, wakeAt);
    var r := CancelSleep(Mark(s, t, if io then IoWait else Sleeping, wakeAt), t);
    CancelSleepKeeps(Mark(s, t, if io then IoWait else Sleeping, wakeAt), c);
    assert CpuOk(r, c);
  }

  // ---- a reschedule, task by task -----------------------------------------------

  function AfterSchedule(s: State, c: Cpu, x: Ptr): Task
    requires c < |s.cpus| && s.cpus[c].current in s.tasks && x in s.tasks
  {
    var k := s.tasks[x];
    if x == Choice(s, c) then k.(status := Running, onRunq := false, onCpu := k.onCpu || x != s.cpus[c].current)
    else if x == s.cpus[c].current && Requeues(s, c) then k.(status := Ready, wakeAt := 0, onRunq := true)
    else k
  }

  lemma DispatchTasks(s: State, c: Cpu, next: Ptr, x: Ptr)
    requires MayTurn(s, c, next) && Lives(s, s.cpus[c].current, c) && TaskOk(s, s.cpus[c].current) && x in s.tasks
    ensures var k := s.tasks[s.cpus[c].current];
            var r := Dispatch(s, c, next);
            && x in r.tasks && r == s.(tasks := r.tasks, cpus := r.cpus)
            && r.tasks[x] == if x == next then s.tasks[x].(status := Running, onRunq := false, onCpu := true)
                             else if x == s.cpus[c].current && k.status == Running && !IsIdle(k)
                             then k.(status := Ready, wakeAt := 0, onRunq := true) else s.tasks[x]
  {
    var k := s.tasks[s.cpus[c].current];
    if k.status == Running && !IsIdle(k) { DispatchIs(s, c, next); }
  }

  lemma PoppedTasks(s: State, u: State, c: Cpu, x: Ptr)
    requires Popped(s, u, c) && s.cpus[c].idle in s.tasks && x in s.tasks
    requires forall t :: t in s.cpus[c].runq ==> t in s.tasks
    ensures var r := Schedule(s, c);
            x in r.tasks && r.tasks[x] == AfterSchedule(s, c, x) && r == s.(tasks := r.tasks, cpus := r.cpus)
  {
    var next := s.cpus[c].runq[0];
    RemoveCpus(s, next, c);
    if next != s.cpus[c].current { DispatchTasks(u, c, next, x); }
  }

  /** The chosen task runs, the one that leaves is ready if it had not blocked, and every
      other is as it was. */
  lemma ScheduleTasks(s: State, c: Cpu, x: Ptr)
    requires MaySchedule(s, c) && x in s.tasks
    ensures var r := Schedule(s, c);
            x in r.tasks && r.tasks[x] == AfterSchedule(s, c, x) && r == s.(tasks := r.tasks, cpus := r.cpus)
  {
    var cur := s.cpus[c].current;
    assert TaskOk(s, cur) && TaskOk(s, x);
    if s.cpus[c].runq != [] {
      var u := PopFirst(s, c);
      PoppedTasks(s, u, c, x);
    } else {
      assert TaskOk(s, s.cpus[c].idle);
      if s.tasks[cur].status != Running && s.cpus[c].idle != cur { DispatchTasks(s, c, s.cpus[c].idle, x); }
    }
  }

  /** The task that was left is off the CPU, and nothing else changes. */
  lemma FinishEffect(s: State, c: Cpu)
    requires c < |s.cpus| && s.cpus[c].from.Some? && s.cpus[c].from.value in s.tasks
    ensures var p := s.cpus[c].from.value; var r := FinishSwitch(s, c);
            && r.tasks.Keys == s.tasks.Keys && !r.tasks[p].onCpu && r.tasks[p].(onCpu := s.tasks[p].onCpu) == s.tasks[p]
            && (forall x :: x in s.tasks && x != p ==> r.tasks[x] == s.tasks[x])
            && r.cpus[c].from == None && r.cpus == s.cpus[c := s.cpus[c].(from := None)]
            && r == s.(tasks := r.tasks, cpus := r.cpus)
  {
  }

  // ---- the clock ----------------------------------------------------------------

  /** At time `now` a task that sleeps until then or earlier, for a time or for input and
      output, becomes ready; one with a later deadline or none stays as it is. */
  lemma TickWakesIff(s: State, now: nat, t: Ptr)
    requires Inv(s) && t in s.tasks && !IsIdle(s.tasks[t])
    ensures R.Enabled(s, R.Tick(now))
    ensures var k := s.tasks[t]; var r := R.Apply(s, R.Tick(now));
            && t in r.tasks
            && r.tasks[t] == if (k.status == Sleeping || k.status == IoWait) && 0 < k.wakeAt <= now
                             then k.(status := Ready, wakeAt := 0, onRunq := true) else k
  {
    assert TaskOk(s, t);
    forall x | x in s.list ensures !IsIdle(s.tasks[x]) { assert TaskOk(s, x); }
    PollWakesTheExpired(s, s.list, now, t, 0);
  }

  // ---- birth and reparenting ----------------------------------------------------

  /** A new task has the next process number, is ready at the back of the chosen queue and
      at the head of the list; nobody else changes. */
  lemma SpawnEffect(s: State, t: Ptr, ppid: nat, first: Cpu, final: Cpu, c: Cpu)
    requires Inv(s) && t !in s.tasks && c < |s.cpus|
    ensures var r, d := Spawn(s, t, ppid, first, final), if final < |s.cpus| then final else 0;
            && r.tasks.Keys == s.tasks.Keys + {t} && r.tasks[t] == Task(s.nextPid, ppid, Ready, d, 0, true, false)
            && (forall x :: x in s.tasks ==> r.tasks[x] == s.tasks[x])
            && r.cpus[c] == s.cpus[c].(runq := s.cpus[c].runq + if c == d then [t] else [])
            && r.list == [t] + s.list && r.nextPid == s.nextPid + 1
            && r.stack == s.stack && r.reaping == s.reaping && !r.panicked
  {
    forall d | 0 <= d < |s.cpus| ensures t !in s.cpus[d].runq { BornCpu(s, t, ppid, d); }
    SpawnIs(s, t, ppid, first, final);
  }

  /** Exactly the living children of `pid` get process 1 as their parent; the dead wait for
      theirs. */
  lemma ReparentEffect(s: State, pid: nat, x: Ptr)
    requires Inv(s) && x in s.tasks
    ensures var k, r := s.tasks[x], Reparent(s, pid);
            && r.tasks.Keys == s.tasks.Keys && r == s.(tasks := r.tasks)
            && r.tasks[x] == (if !IsIdle(k) && k.ppid == pid && k.status != Zombie then k.(ppid := 1) else k)
  {
    assert TaskOk(s, x);
  }

  // ---- death --------------------------------------------------------------------

  /** A dead task that no CPU is on any more is freed, and only it: the others, their order
      in the list, the queues and the CPUs are as they were. */
  lemma ReapEffect(s: State, p: Ptr, x: Ptr)
    requires Inv(s) && p in s.reaping && s.reaping[p] in s.tasks && x in s.tasks
    ensures var t, r := s.reaping[p], Reap(s, p, s.reaping[p]);
            && p !in r.reaping && r.cpus == s.cpus && r.stack == s.stack
            && (t in r.tasks <==> s.tasks[t].status != Zombie || s.tasks[t].onCpu)
            && (x != t ==> x in r.tasks && r.tasks[x] == s.tasks[x])
            && (forall y :: y in r.list <==> y in s.list && y in r.tasks)
  {
    var t := s.reaping[p];
    assert ReapOk(s, p) && TaskOk(s, t);
    WithoutIn(s.list, t);
    if Frees(s, t) {
      FreedIsUnused(s, p, t);
      assert Remove(s, t) == s;
    }
  }

  /** The CPU turns away from a task that has just died. */
  lemma DeadIsLeft(s: State, c: Cpu)
    requires MaySchedule(s, c) && Cur(s, c) in s.tasks && !IsIdle(s.tasks[Cur(s, c)])
    ensures var t := Cur(s, c);
            var s1 := Mark(s, t, Zombie, s.tasks[t].wakeAt);
            && MaySchedule(s1, c)
            && var s2 := Schedule(s1, c);
            && Inv(s2) && |s2.cpus| == |s.cpus| && s2.cpus[c].from == Some(t) && s2.cpus[c].current != t
            && t in s2.tasks && t in s2.list && s2.tasks[t].status == Zombie
            && s2.tasks[t].ppid == s.tasks[t].ppid && s2.reaping == s.reaping
  {
    var t := Cur(s, c);
    assert TaskOk(s, t);
    var s1 := Mark(s, t, Zombie, s.tasks[t].wakeAt);
    MarkedMaySchedule(s, c, Zombie, s.tasks[t].wakeAt);
    BlockedIsLeft(s1, c);
    DeadStays(s1, c, t);
  }

  lemma DeadStays(s: State, c: Cpu, t: Ptr)
    requires MaySchedule(s, c) && t == Cur(s, c) && t in s.tasks && s.tasks[t].status == Zombie
    requires |Schedule(s, c).cpus| == |s.cpus| && Schedule(s, c).cpus[c].current != t
    ensures var r := Schedule(s, c);
            Inv(r) && t in r.tasks && r.tasks[t] == s.tasks[t] && r.list == s.list && r.reaping == s.reaping
  {
    assert CpuOk(s, c);
    ScheduleKeeps(s, c);
    ScheduleTasks(s, c, t);
    ScheduleRunsTheChoice(s, c, c);
  }

  /** And when the switch is finished the task is off every CPU. */
  lemma DeadLeavesCpu(s: State, c: Cpu, t: Ptr)
    requires Inv(s) && c < |s.cpus| && s.cpus[c].from == Some(t) && t in s.tasks && s.tasks[t].status == Zombie
    ensures var s1 := Switch(s, c);
            && s1.stack[c] == s1.cpus[c].current
            && var r := FinishSwitch(s1, c);
            && Inv(r) && t in r.tasks && r.tasks[t] == s.tasks[t].(onCpu := false)
            && r.list == s.list && r.reaping == s.reaping
  {
    SwitchKeeps(s, c);
    var s1 := Switch(s, c);
    assert CpuOk(s1, c);
    FinishEffect(s1, c);
    FinishKeeps(s1, c);
  }

  /** And then its parent, running on CPU `c`, frees it: it finds the child in the list,
      keeps the pointer, and the next section frees it. */
  lemma ParentFreesDead(s: State, c: Cpu, t: Ptr)
    requires Inv(s) && R.Executes(s, c) && Cur(s, c) in s.tasks && !IsIdle(s.tasks[Cur(s, c)])
    requires Cur(s, c) !in s.reaping && t in s.tasks && s.tasks[t].status == Zombie && !s.tasks[t].onCpu
    requires s.tasks[t].ppid == s.tasks[Cur(s, c)].pid && !IsIdle(s.tasks[t])
    requires forall x :: x in s.tasks && x != t && s.tasks[x].status == Zombie ==>
                           s.tasks[x].ppid != s.tasks[Cur(s, c)].pid
    ensures R.Enabled(s, R.FindChild(c))
    ensures var m := R.Apply(s, R.FindChild(c));
            && R.Enabled(m, R.ReapChild(c))
            && var r := R.Apply(m, R.ReapChild(c));
            && t !in r.tasks && t !in r.list && r.reaping == s.reaping - {t} && r.cpus == s.cpus
            && forall x :: x in s.tasks && x != t ==> x in r.tasks && r.tasks[x] == s.tasks[x]
  {
    var p := Cur(s, c);
    assert TaskOk(s, t);
    var z := FindZombie(s, s.list, s.tasks[p].pid);
    assert ZombieChild(s, t, s.tasks[p].pid) && z == Some(t);
    var m := R.Apply(s, R.FindChild(c));
    assert CpuOk(s, c) && TaskOk(s, p) && p != t;
    ReapOnly(s, m, p, t);
  }

  lemma FreedOnly(m: State, p: Ptr, t: Ptr)
    requires m.cpus != [] && Frees(m, t) && !m.tasks[t].onRunq && !IsIdle(m.tasks[t]) && NoDup(m.list)
    ensures var r := Reap(m, p, t);
            r.tasks == m.tasks - {t} && r.cpus == m.cpus && r.reaping == m.reaping - {p, t} && t !in r.list
  {
    WithoutIn(m.list, t);
  }

  lemma ReapOnly(s: State, m: State, p: Ptr, t: Ptr)
    requires p !in s.reaping && m == s.(reaping := s.reaping[p := t]) && t != p
    requires s.cpus != [] && Frees(s, t) && !s.tasks[t].onRunq && !IsIdle(s.tasks[t]) && NoDup(s.list)
    ensures var r := Reap(m, p, t);
            && t !in r.tasks && t !in r.list && r.reaping == s.reaping - {t} && r.cpus == s.cpus
            && forall x :: x in s.tasks && x != t ==> x in r.tasks && r.tasks[x] == s.tasks[x]
  {
    FreedOnly(m, p, t);
    assert s.reaping[p := t] - {p, t} == s.reaping - {t};
  }

  // ---- the dead stay dead, but for one case -------------------------------------

  /** `t` is gone or still dead. */
  predicate StillDead(r: State, t: Ptr) { t !in r.tasks || r.tasks[t].status == Zombie }

  lemma YieldLeavesDead(s: State, c: Cpu, t: Ptr)
    requires MaySchedule(s, c) && t in s.tasks && s.tasks[t].status == Zombie
    ensures StillDead(Schedule(s, c), t)
  {
    var q := s.cpus[c].runq;
    assert CpuOk(s, c) && TaskOk(s, t) && TaskOk(s, s.cpus[c].idle);
    ScheduleTasks(s, c, t);
    if q != [] {
      assert Lives(s, q[0], c);
      assert TaskOk(s, q[0]);
    }
  }

  lemma WakeLeavesDead(s: State, x: Ptr, t: Ptr)
    requires Inv(s) && x in s.tasks && t in s.tasks && s.tasks[t].status == Zombie
    ensures StillDead(Wake(s, x), t)
  {
    assert TaskOk(s, x) && TaskOk(s, t);
    if MayWake(s, x) { WakeTasks(s, x); }
  }

  lemma MarkLeavesDead(s: State, x: Ptr, status: Status, wakeAt: nat, t: Ptr)
    requires Inv(s) && x in s.tasks && t in s.tasks && s.tasks[t].status == Zombie
    ensures t in Mark(s, x, status, wakeAt).tasks
    ensures Mark(s, x, status, wakeAt).tasks[t].status == if x == t then status else Zombie
  {
    assert TaskOk(s, x);
    RemoveCpus(s, x, 0);
  }

  lemma TickLeavesDead(s: State, now: nat, t: Ptr)
    requires Inv(s) && t in s.tasks && s.tasks[t].status == Zombie
    ensures R.Enabled(s, R.Tick(now)) && StillDead(R.Apply(s, R.Tick(now)), t)
  {
    assert TaskOk(s, t);
    TickWakesIff(s, now, t);
  }

  lemma ReapLeavesDead(s: State, c: Cpu, t: Ptr)
    requires Inv(s) && R.Enabled(s, R.ReapChild(c)) && t in s.tasks && s.tasks[t].status == Zombie
    ensures StillDead(R.Apply(s, R.ReapChild(c)), t)
  {
    assert ReapOk(s, Cur(s, c));
    ReapEffect(s, Cur(s, c), t);
  }

  /** A dead task is not revived by any step, with one exception: a task that was killed
      while it runs and then marks itself asleep is no longer dead. */
  lemma DeadRevivesIff(s: State, step: R.Step, t: Ptr)
    requires Inv(s) && R.Enabled(s, step) && t in s.tasks && s.tasks[t].status == Zombie
    ensures !StillDead(R.Apply(s, step), t) <==> step.Sleep? && Cur(s, step.c) == t
  {
    match step
    case Yield(c) => assert CpuOk(s, c); YieldLeavesDead(s, c, t);
    case SwitchStacks(c) =>
    case Finish(c) => assert CpuOk(s, c); FinishEffect(s, c);
    case WakeUp(x) => WakeLeavesDead(s, x, t);
    case Tick(now) => TickLeavesDead(s, now, t);
    case Sleep(c, io, wakeAt) =>
      assert CpuOk(s, c);
      MarkLeavesDead(s, Cur(s, c), if io then IoWait else Sleeping, wakeAt, t);
    case StayAwake(c) => assert CpuOk(s, c); CancelEffect(s, Cur(s, c));
    case Kill(x) => MarkLeavesDead(s, x, Zombie, s.tasks[x].wakeAt, t);
    case Fork(x, ppid, first, final) => SpawnEffect(s, x, ppid, first, final, 0);
    case Orphan(c) => assert CpuOk(s, c); ReparentEffect(s, s.tasks[Cur(s, c)].pid, t);
    case FindChild(c) =>
    case ReapChild(c) => ReapLeavesDead(s, c, t);
  }

  /** From the start: the first task is killed while it runs, goes to sleep, and is woken:
      it is ready again. */
  lemma KilledSleeperRevives(n: nat)
    requires 0 < n
    ensures var s := R.Start(n);
            && R.Enabled(s, R.Kill(n))
            && var s1 := R.Apply(s, R.Kill(n));
            && n in s1.tasks && s1.tasks[n].status == Zombie && R.Enabled(s1, R.Sleep(0, true, 0))
            && var s2 := R.Apply(s1, R.Sleep(0, true, 0));
            && R.Enabled(s2, R.WakeUp(n))
            && var s3 := R.Apply(s2, R.WakeUp(n));
            && n in s3.tasks && s3.tasks[n].status == Ready && n in s3.cpus[0].runq
  {
    var s := R.Start(n);
    R.StartInv(n);
    var s1 := R.Apply(s, R.Kill(n));
    R.StepKeeps(s, R.Kill(n));
    KilledState(s, n);
    var s2 := R.Apply(s1, R.Sleep(0, true, 0));
    R.StepKeeps(s1, R.Sleep(0, true, 0));
    MarkedState(s1, n);
    assert TaskOk(s2, n);
    WakeTasks(s2, n);
    WakeQueues(s2, n, 0);
  }

  lemma KilledState(s: State, t: Ptr)
    requires Inv(s) && t in s.tasks && s.tasks[t].affinity == 0
    ensures var m := Mark(s, t, Zombie, s.tasks[t].wakeAt);
            && |m.cpus| == |s.cpus| && m.cpus[0].current == s.cpus[0].current && m.stack == s.stack
            && t in m.tasks && m.tasks[t] == s.tasks[t].(status := Zombie, onRunq := false)
  {
    assert TaskOk(s, t);
    RemoveCpus(s, t, 0);
  }

  lemma MarkedState(s: State, t: Ptr)
    requires Inv(s) && t in s.tasks && s.tasks[t].affinity == 0
    ensures var m := Mark(s, t, IoWait, 0);
            && |m.cpus| == |s.cpus| && t in m.tasks
            && m.tasks[t] == s.tasks[t].(status := IoWait, wakeAt := 0, onRunq := false)
  {
    assert TaskOk(s, t);
    RemoveCpus(s, t, 0);
  }
}
