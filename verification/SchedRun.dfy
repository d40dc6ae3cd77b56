/** Every interleaving of the critical sections, switches and reapers of all CPUs. */
module SchedRun {
  import opened Prelude
  import opened SchedSpec
  import opened SchedProps
  import opened SchedSteps
  import opened SchedLife

  datatype Step =
    | Yield(c: Cpu)                                   // the locked part of a reschedule
    | SwitchStacks(c: Cpu)                            // the context switch
    | Finish(c: Cpu)                                  // the new task drops `onCpu` of the old
    | WakeUp(t: Ptr)
    | Tick(now: nat)                                  // expired sleeps
    | Sleep(c: Cpu, io: bool, wakeAt: nat)            // a task marks itself
    | StayAwake(c: Cpu)                               // and takes the mark back
    | Kill(t: Ptr)                                    // exit, or killed by another
    | Fork(t: Ptr, ppid: nat, first: Cpu, final: Cpu)
    | Orphan(c: Cpu)                                  // give the living children away
    | FindChild(c: Cpu)                               // find a dead child
    | ReapChild(c: Cpu)                               // free it

  /** CPU `c` executes on the stack of its current task. */
  ghost predicate Executes(s: State, c: Cpu) { c < |s.cpus| && c < |s.stack| && s.stack[c] == s.cpus[c].current }

  ghost predicate Enabled(s: State, step: Step) {
    && s.cpus != []
    && match step
       case Yield(c) => Executes(s, c) && s.cpus[c].from.None?
       case SwitchStacks(c) => c < |s.cpus| == |s.stack| && !Executes(s, c)
       case Finish(c) => Executes(s, c) && s.cpus[c].from.Some?
       case WakeUp(t) => t in s.tasks
       case Tick(now) => true
       case Sleep(c, io, wakeAt) => Executes(s, c)
       case StayAwake(c) => Executes(s, c)
       case Kill(t) => t in s.tasks && !IsIdle(s.tasks[t])
       case Fork(t, ppid, first, final) => t !in s.tasks
       case Orphan(c) => Executes(s, c) && s.cpus[c].current !in s.reaping
       case FindChild(c) => Executes(s, c) && s.cpus[c].current !in s.reaping
       case ReapChild(c) => Executes(s, c) && s.cpus[c].current in s.reaping
  }

  /** Following a pointer to a freed structure. */
  function Bad(s: State): State { s.(panicked := true) }

  function Current(s: State, c: Cpu): Ptr
    requires c < |s.cpus|
  {
    s.cpus[c].current
  }

  ghost function Apply(s: State, step: Step): State
    requires Enabled(s, step)
  {
    match step
    case Yield(c) =>
      if Current(s, c) in s.tasks && s.cpus[c].idle in s.tasks && forall t :: t in s.cpus[c].runq ==> t in s.tasks
      then Schedule(s, c) else Bad(s)
    case SwitchStacks(c) => Switch(s, c)
    case Finish(c) => if s.cpus[c].from.value in s.tasks then FinishSwitch(s, c) else Bad(s)
    case WakeUp(t) => Wake(s, t)
    case Tick(now) => if forall t :: t in s.list ==> t in s.tasks then PollSleep(s, s.list, now) else Bad(s)
    case Sleep(c, io, wakeAt) =>
      if Current(s, c) in s.tasks then Mark(s, Current(s, c), if io then IoWait else Sleeping, wakeAt) else Bad(s)
    case StayAwake(c) => if Current(s, c) in s.tasks then CancelSleep(s, Current(s, c)) else Bad(s)
    case Kill(t) => Mark(s, t, Zombie, s.tasks[t].wakeAt)
    case Fork(t, ppid, first, final) => Spawn(s, t, ppid, first, final)
    case Orphan(c) =>
      if Current(s, c) !in s.tasks then Bad(s)
      else if IsIdle(s.tasks[Current(s, c)]) then s
      else Reparent(s, s.tasks[Current(s, c)].pid)
    case FindChild(c) =>
      if Current(s, c) !in s.tasks then Bad(s)
      else if IsIdle(s.tasks[Current(s, c)]) then s
      else
        var z := FindZombie(s, s.list, s.tasks[Current(s, c)].pid);
        if z.None? then s else s.(reaping := s.reaping[Current(s, c) := z.value])
    case ReapChild(c) =>
      var t := s.reaping[Current(s, c)];
      if t in s.tasks then Reap(s, Current(s, c), t) else Bad(s)
  }

  lemma StepKeeps(s: State, step: Step)
    requires Inv(s) && Enabled(s, step)
    ensures Inv(Apply(s, step))
  {
    match step
    case Yield(c) => assert CpuOk(s, c); ScheduleKeeps(s, c);
    case SwitchStacks(c) => SwitchKeeps(s, c);
    case Finish(c) => assert CpuOk(s, c); FinishKeeps(s, c);
    case WakeUp(t) => WakeKeeps(s, t);
    case Tick(now) => PollSleepKeeps(s, s.list, now);
    case Sleep(c, io, wakeAt) =>
      assert CpuOk(s, c);
      MarkKeeps(s, Current(s, c), if io then IoWait else Sleeping, wakeAt);
    case StayAwake(c) => assert CpuOk(s, c); CancelSleepKeeps(s, c);
    case Kill(t) => MarkKeeps(s, t, Zombie, s.tasks[t].wakeAt);
    case Fork(t, ppid, first, final) => SpawnKeeps(s, t, ppid, first, final);
    case Orphan(c) => assert CpuOk(s, c); if !IsIdle(s.tasks[Current(s, c)]) { ReparentKeeps(s, Current(s, c)); }
    case FindChild(c) => FindKeeps(s, c);
    case ReapChild(c) => assert ReapOk(s, Current(s, c)); ReapKeeps(s, Current(s, c));
  }

  lemma FindKeeps(s: State, c: Cpu)
    requires Inv(s) && Enabled(s, FindChild(c))
    ensures Inv(Apply(s, FindChild(c)))
  {
    assert CpuOk(s, c);
    var p := Current(s, c);
    if !IsIdle(s.tasks[p]) {
      var z := FindZombie(s, s.list, s.tasks[p].pid);
      if z.Some? { FoundKeeps(s, p, z.value); }
    }
  }

  // ---- runs ---------------------------------------------------------------------

  predicate IsCpu(i: nat, n: nat) { i < n }

  /** `n` CPUs with their idle tasks, and the first task on CPU 0. */
  function Start(n: nat): State
    requires 0 < n
  {
    State(
      (map i: nat | i < n && IsCpu(i, n) :: Task(0, 0, Running, i, 0, false, i != 0))
      [n := Task(1, 0, Running, 0, 0, false, true)],
      [n],
      seq(n, i requires 0 <= i => CpuLocal(if i == 0 then n else i, i, None, [])),
      seq(n, i requires 0 <= i => if i == 0 then n else i),
      map[], 2, false)
  }

  lemma StartInv(n: nat)
    requires 0 < n
    ensures Inv(Start(n))
  {
  }

  ghost predicate AllEnabled(s: State, steps: seq<Step>)
    decreases |steps|
  {
    steps == [] || (Enabled(s, steps[0]) && AllEnabled(Apply(s, steps[0]), steps[1..]))
  }

  ghost function Run(s: State, steps: seq<Step>): State
    requires AllEnabled(s, steps)
    decreases |steps|
  {
    if steps == [] then s else Run(Apply(s, steps[0]), steps[1..])
  }

  lemma {:induction false} RunKeeps(s: State, steps: seq<Step>)
    requires Inv(s) && AllEnabled(s, steps)
    ensures Inv(Run(s, steps))
    decreases |steps|
  {
    if steps != [] {
      StepKeeps(s, steps[0]);
      RunKeeps(Apply(s, steps[0]), steps[1..]);
    }
  }

  // ---- what the invariant means -------------------------------------------------

  ghost predicate OnQueue(s: State, t: Ptr, c: Cpu) { c < |s.cpus| && t in s.cpus[c].runq }
  ghost predicate RunsOn(s: State, t: Ptr, c: Cpu) { c < |s.cpus| && s.cpus[c].current == t }
  ghost predicate Leaving(s: State, t: Ptr, c: Cpu) { c < |s.cpus| && s.cpus[c].from == Some(t) }
  ghost predicate StackOf(s: State, t: Ptr, c: Cpu) { c < |s.stack| && s.stack[c] == t }

  /** No assertion fails and no freed structure is followed; no task and no stack is
      on two CPUs; READY is membership of exactly one queue, once; RUNNING is being
      current; `onCpu` is being current or just left; whatever a CPU uses is alive. */
  ghost predicate Safe(s: State) {
    && !s.panicked
    && (forall t, c, d :: RunsOn(s, t, c) && RunsOn(s, t, d) ==> c == d)
    && (forall t, c, d :: StackOf(s, t, c) && StackOf(s, t, d) ==> c == d)
    && (forall t, c, d :: OnQueue(s, t, c) && OnQueue(s, t, d) ==> c == d)
    && (forall c :: 0 <= c < |s.cpus| ==> NoDup(s.cpus[c].runq))
    && (forall t :: t in s.tasks ==> (s.tasks[t].status == Ready <==> OnQueue(s, t, s.tasks[t].affinity)))
    && (forall t :: t in s.tasks && s.tasks[t].status == Running && !IsIdle(s.tasks[t]) ==> exists c :: RunsOn(s, t, c))
    && (forall t :: t in s.tasks ==> (s.tasks[t].onCpu <==> exists c :: RunsOn(s, t, c) || Leaving(s, t, c)))
    && (forall t, c :: RunsOn(s, t, c) || Leaving(s, t, c) || StackOf(s, t, c) || OnQueue(s, t, c) ==> t in s.tasks)
  }

  lemma RunsHere(s: State, t: Ptr, c: Cpu)
    requires Inv(s) && (RunsOn(s, t, c) || Leaving(s, t, c) || StackOf(s, t, c) || OnQueue(s, t, c))
    ensures Lives(s, t, c)
  {
    assert CpuOk(s, c);
  }

  lemma OneCpu(s: State, t: Ptr)
    requires Inv(s) && t in s.tasks
    ensures s.tasks[t].status == Ready <==> OnQueue(s, t, s.tasks[t].affinity)
    ensures s.tasks[t].status == Running && !IsIdle(s.tasks[t]) ==> exists c :: RunsOn(s, t, c)
    ensures s.tasks[t].onCpu <==> exists c :: RunsOn(s, t, c) || Leaving(s, t, c)
  {
    assert TaskOk(s, t);
    var a := s.tasks[t].affinity;
    assert s.cpus[a].current == t <==> RunsOn(s, t, a);
    assert s.cpus[a].from == Some(t) <==> Leaving(s, t, a);
    forall c | RunsOn(s, t, c) || Leaving(s, t, c) ensures c == a { RunsHere(s, t, c); }
  }

  lemma InvIsSafe(s: State)
    requires Inv(s)
    ensures Safe(s)
  {
    forall t, c, d | RunsOn(s, t, c) && RunsOn(s, t, d) ensures c == d { RunsHere(s, t, c); RunsHere(s, t, d); }
    forall t, c, d | StackOf(s, t, c) && StackOf(s, t, d) ensures c == d { RunsHere(s, t, c); RunsHere(s, t, d); }
    forall t, c, d | OnQueue(s, t, c) && OnQueue(s, t, d) ensures c == d { RunsHere(s, t, c); RunsHere(s, t, d); }
    forall c | 0 <= c < |s.cpus| ensures NoDup(s.cpus[c].runq) { assert CpuOk(s, c); }
    forall t | t in s.tasks
      ensures s.tasks[t].status == Ready <==> OnQueue(s, t, s.tasks[t].affinity)
      ensures s.tasks[t].status == Running && !IsIdle(s.tasks[t]) ==> exists c :: RunsOn(s, t, c)
      ensures s.tasks[t].onCpu <==> exists c :: RunsOn(s, t, c) || Leaving(s, t, c)
    {
      OneCpu(s, t);
    }
    forall t, c | RunsOn(s, t, c) || Leaving(s, t, c) || StackOf(s, t, c) || OnQueue(s, t, c) ensures t in s.tasks {
      RunsHere(s, t, c);
    }
  }

  /** The scheduler is safe in every reachable state, for any number of CPUs. */
  lemma ReachableIsSafe(n: nat, steps: seq<Step>)
    requires 0 < n && AllEnabled(Start(n), steps)
    ensures Safe(Run(Start(n), steps))
  {
    StartInv(n);
    RunKeeps(Start(n), steps);
    InvIsSafe(Run(Start(n), steps));
  }

  /** When a reachable step frees a task, no CPU runs it, leaves it or stands on its
      stack, and the pointer the parent kept was still to its own dead child. */
  lemma ReapIsSafe(n: nat, steps: seq<Step>, c: Cpu)
    requires 0 < n && AllEnabled(Start(n), steps)
    requires var s := Run(Start(n), steps); Enabled(s, ReapChild(c)) && Current(s, c) in s.tasks
    ensures var s := Run(Start(n), steps);
            var p := Current(s, c);
            var t := s.reaping[p];
            && t in s.tasks && s.tasks[t].ppid == s.tasks[p].pid
            && (t !in Apply(s, ReapChild(c)).tasks ==>
                  && s.tasks[t].status == Zombie
                  && forall d :: !RunsOn(s, t, d) && !Leaving(s, t, d) && !StackOf(s, t, d) && !OnQueue(s, t, d))
  {
    StartInv(n);
    RunKeeps(Start(n), steps);
    var s := Run(Start(n), steps);
    var p := Current(s, c);
    assert ReapOk(s, p);
    if Frees(s, s.reaping[p]) { FreedIsUnused(s, p, s.reaping[p]); }
  }
}
