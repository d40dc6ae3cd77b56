/** Each critical section and each switch keeps the scheduler's invariant. */
module SchedSteps {
  import opened Prelude
  import opened SchedSpec
  import opened SchedProps

  // ---- making ready -------------------------------------------------------------

  /** Queueing is taking off the old queue, then appending; its assertions hold. */
  lemma MarkReadyIs(s: State, t: Ptr, c: Cpu)
    requires s.cpus != [] && t in s.tasks && TaskOk(s, t) && c < |s.cpus|
    requires !IsIdle(s.tasks[t]) && s.tasks[t].status != Zombie
    ensures MarkReady(s, t, c) == Attach(Remove(s, t), t, c)
  {
    var a := MarkReady(s, t, c);
    var b := Attach(Remove(s, t), t, c);
    assert a.tasks == b.tasks;
    assert a.cpus == b.cpus;
  }

  lemma MarkReadyKeeps(s: State, t: Ptr, c: Cpu)
    requires Inv(s) && t in s.tasks && c < |s.cpus|
    requires c == s.tasks[t].affinity || !s.tasks[t].onCpu
    ensures Inv(MarkReady(s, t, c))
  {
    if !IsIdle(s.tasks[t]) && s.tasks[t].status != Zombie {
      assert TaskOk(s, t);
      MarkReadyIs(s, t, c);
      DetachLoose(s, t);
      RemoveCpus(s, t, 0);
      AttachKeeps(Remove(s, t), t, c);
    }
  }

  lemma ClearWakeAt(s: State, t: Ptr)
    requires Inv(s) && t in s.tasks
    ensures Inv(SetTask(s, t, s.tasks[t].(wakeAt := 0)))
  {
    var r := SetTask(s, t, s.tasks[t].(wakeAt := 0));
    forall x | x in r.tasks ensures TaskOk(r, x) { assert TaskOk(s, x); }
    forall c | 0 <= c < |r.cpus| ensures CpuOk(r, c) { assert CpuOk(s, c); }
    SameFamily(s, r);
  }

  /** A wake-up is safe at any moment: also for a task that has marked itself asleep
      and has not yet switched away. */
  lemma WakeKeeps(s: State, t: Ptr)
    requires Inv(s) && t in s.tasks
    ensures Inv(Wake(s, t))
  {
    assert TaskOk(s, t);
    ClearWakeAt(s, t);
    if s.tasks[t].status != Zombie {
      MarkReadyKeeps(SetTask(s, t, s.tasks[t].(wakeAt := 0)), t, s.tasks[t].affinity);
    }
  }

  lemma {:induction false} PollSleepKeeps(s: State, rest: seq<Ptr>, now: nat)
    requires Inv(s) && forall t :: t in rest ==> t in s.tasks
    ensures Inv(PollSleep(s, rest, now))
    decreases |rest|
  {
    if rest != [] {
      WakeKeeps(s, rest[0]);
      var u := if Due(s.tasks[rest[0]], now) then Wake(s, rest[0]) else s;
      PollSleepKeeps(u, rest[1..], now);
    }
  }

  // ---- blocking and dying -------------------------------------------------------

  lemma MarkKeeps(s: State, t: Ptr, status: Status, wakeAt: nat)
    requires Inv(s) && t in s.tasks
    requires status == Sleeping || status == IoWait || (status == Zombie && !IsIdle(s.tasks[t]))
    ensures Inv(Mark(s, t, status, wakeAt))
  {
    assert TaskOk(s, t);
    DetachLoose(s, t);
    RemoveCpus(s, t, 0);
    Settle(Remove(s, t), t, status, wakeAt);
  }

  lemma OffQueueIsLoose(s: State, t: Ptr)
    requires Inv(s) && t in s.tasks && s.tasks[t].status != Ready
    ensures Loose(s, t)
  {
    assert TaskOk(s, t);
  }

  /** Cancelling a sleep puts the task back to running without queueing it. */
  lemma CancelSleepKeeps(s: State, c: Cpu)
    requires Inv(s) && c < |s.cpus|
    requires s.cpus[c].current in s.tasks
    ensures Inv(CancelSleep(s, s.cpus[c].current))
  {
    var t := s.cpus[c].current;
    assert CpuOk(s, c);
    if s.tasks[t].status == Sleeping || s.tasks[t].status == IoWait {
      OffQueueIsLoose(s, t);
      Settle(s, t, Running, 0);
    }
  }

  // ---- switching ----------------------------------------------------------------

  /** CPU `c` turns to `next`, which is on no queue; nothing is queued yet. */
  function Turn(s: State, c: Cpu, next: Ptr): State
    requires c < |s.cpus| && next in s.tasks
  {
    SetTask(s, next, s.tasks[next].(onRunq := false, status := Running, onCpu := true))
    .(cpus := s.cpus[c := s.cpus[c].(current := next, from := Some(s.cpus[c].current))])
  }

  ghost predicate MayTurn(s: State, c: Cpu, next: Ptr) {
    && c < |s.cpus| == |s.stack| && Lives(s, next, c) && s.cpus[c].from.None?
    && next != s.cpus[c].current && s.stack[c] == s.cpus[c].current
  }

  lemma TurnTask(s: State, c: Cpu, next: Ptr, x: Ptr)
    requires Loose(s, next) && MayTurn(s, c, next) && x in s.tasks
    ensures x != s.cpus[c].current ==> TaskOk(Turn(s, c, next), x)
    ensures x == s.cpus[c].current ==>
              && (s.tasks[x].status != Running || IsIdle(s.tasks[x]) ==> TaskOk(Turn(s, c, next), x))
              && (s.tasks[x].status != Ready ==> LooseTask(Turn(s, c, next), x))
  {
    assert x != next ==> TaskOk(s, x);
    assert CpuOk(s, c);
  }

  lemma TurnCpu(s: State, c: Cpu, next: Ptr, d: Cpu)
    requires Loose(s, next) && MayTurn(s, c, next) && d < |s.cpus|
    ensures CpuOk(Turn(s, c, next), d)
  {
    assert CpuOk(s, d) && CpuOk(s, c);
    var r := Turn(s, c, next);
    forall x | x in r.cpus[d].runq ensures Lives(r, x, d) { assert Lives(s, x, d); }
  }

  lemma TurnKeeps(s: State, c: Cpu, next: Ptr)
    requires Loose(s, next) && MayTurn(s, c, next) && s.cpus[c].current in s.tasks
    ensures var k := s.tasks[s.cpus[c].current];
            if k.status == Running && !IsIdle(k) then Loose(Turn(s, c, next), s.cpus[c].current)
              else Inv(Turn(s, c, next))
  {
    var r := Turn(s, c, next);
    var prev := s.cpus[c].current;
    forall x | x in r.tasks && x != prev ensures TaskOk(r, x) { TurnTask(s, c, next, x); }
    TurnTask(s, c, next, prev);
    forall d | 0 <= d < |r.cpus| ensures CpuOk(r, d) { TurnCpu(s, c, next, d); }
    SameFamily(s, r);
  }

  /** Requeueing the task that leaves and turning to the next one commute. */
  lemma DispatchIs(s: State, c: Cpu, next: Ptr)
    requires MayTurn(s, c, next) && s.cpus != [] && Lives(s, s.cpus[c].current, c)
    requires var k := s.tasks[s.cpus[c].current]; k.status == Running && !IsIdle(k) && TaskOk(s, s.cpus[c].current)
    ensures Dispatch(s, c, next) == Attach(Turn(s, c, next), s.cpus[c].current, c)
  {
    var prev := s.cpus[c].current;
    MarkReadyIs(s, prev, c);
    var a := Dispatch(s, c, next);
    var b := Attach(Turn(s, c, next), prev, c);
    assert a.tasks == b.tasks;
    assert a.cpus == b.cpus;
  }

  lemma DispatchKeeps(s: State, c: Cpu, next: Ptr)
    requires Loose(s, next) && MayTurn(s, c, next)
    requires Lives(s, s.cpus[c].current, c)
    ensures Inv(Dispatch(s, c, next))
  {
    var prev := s.cpus[c].current;
    var k := s.tasks[prev];
    TurnKeeps(s, c, next);
    assert TaskOk(s, prev);
    if k.status == Running && !IsIdle(k) {
      DispatchIs(s, c, next);
      AttachKeeps(Turn(s, c, next), prev, c);
    }
  }

  lemma ScheduleKeeps(s: State, c: Cpu)
    requires Inv(s) && c < |s.cpus| && s.cpus[c].from.None?
    requires CpuOk(s, c)
    ensures Inv(Schedule(s, c))
  {
    var cur := s.cpus[c].current;
    var q := s.cpus[c].runq;
    assert TaskOk(s, cur);
    if q == [] {
      var idle := s.cpus[c].idle;
      assert TaskOk(s, idle);
      OffQueueIsLoose(s, idle);
      if s.tasks[cur].status != Running {
        if idle == cur {
          Settle(s, cur, Running, s.tasks[cur].wakeAt);
        } else {
          DispatchKeeps(s, c, idle);
        }
      }
    } else {
      PoppedKeeps(s, c);
    }
  }

  lemma PoppedKeeps(s: State, c: Cpu)
    requires Inv(s) && c < |s.cpus| && s.cpus[c].from.None? && s.cpus[c].runq != []
    requires CpuOk(s, c)
    ensures Inv(Schedule(s, c))
  {
    var cur := s.cpus[c].current;
    var next := s.cpus[c].runq[0];
    assert Lives(s, next, c);
    assert TaskOk(s, next);
    DetachLoose(s, next);
    RemoveCpus(s, next, c);
    var u := Remove(s, next);
    if next == cur {
      Settle(u, next, Running, u.tasks[next].wakeAt);
    } else {
      DispatchKeeps(u, c, next);
    }
  }

  /** The context switch: the CPU now executes on the stack of its current task. */
  function Switch(s: State, c: Cpu): State
    requires c < |s.cpus| == |s.stack|
  {
    s.(stack := s.stack[c := s.cpus[c].current])
  }

  lemma SwitchKeeps(s: State, c: Cpu)
    requires Inv(s) && c < |s.cpus|
    ensures Inv(Switch(s, c))
  {
    var r := Switch(s, c);
    forall x | x in r.tasks ensures TaskOk(r, x) { assert TaskOk(s, x); }
    forall d | 0 <= d < |r.cpus| ensures CpuOk(r, d) { assert CpuOk(s, d); }
    SameFamily(s, r);
  }

  lemma FinishTask(s: State, c: Cpu, x: Ptr)
    requires Inv(s) && c < |s.cpus| && s.cpus[c].from.Some? && CpuOk(s, c) && x in s.tasks
    ensures TaskOk(FinishSwitch(s, c), x)
  {
    assert TaskOk(s, x);
  }

  lemma FinishCpu(s: State, c: Cpu, d: Cpu)
    requires Inv(s) && c < |s.cpus| && s.cpus[c].from.Some? && CpuOk(s, c) && d < |s.cpus|
    requires s.stack[c] == s.cpus[c].current
    ensures CpuOk(FinishSwitch(s, c), d)
  {
    assert CpuOk(s, d);
    var r := FinishSwitch(s, c);
    forall x | x in r.cpus[d].runq ensures Lives(r, x, d) { assert Lives(s, x, d); }
  }

  lemma FinishKeeps(s: State, c: Cpu)
    requires Inv(s) && c < |s.cpus| && s.cpus[c].from.Some? && CpuOk(s, c)
    requires s.stack[c] == s.cpus[c].current
    ensures Inv(FinishSwitch(s, c))
  {
    var r := FinishSwitch(s, c);
    forall x | x in r.tasks ensures TaskOk(r, x) { FinishTask(s, c, x); }
    forall d | 0 <= d < |r.cpus| ensures CpuOk(r, d) { FinishCpu(s, c, d); }
    SameFamily(s, r);
  }
}
