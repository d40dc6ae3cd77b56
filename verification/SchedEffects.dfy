/** What the scheduler's critical sections do, in full: who is queued where, in which
    order, and who runs next. */
module SchedEffects {
  import opened Prelude
  import opened SchedSpec
  import opened SchedProps
  import opened SchedSteps

  function Woken(k: Task): Task { k.(status := Ready, wakeAt := 0, onRunq := true) }

  lemma {:induction false} WithoutAbsent(q: seq<Ptr>, t: Ptr)
    requires t !in q
    ensures Without(q, t) == q
  {
    if q != [] {
      WithoutAbsent(q[1..], t);
      assert q == [q[0]] + q[1..];
    }
  }

  ghost predicate MayWake(s: State, t: Ptr) {
    s.cpus != [] && t in s.tasks && TaskOk(s, t) && !IsIdle(s.tasks[t]) && s.tasks[t].status != Zombie
  }

  lemma WakeIs(s: State, t: Ptr) returns (u: State)
    requires MayWake(s, t)
    ensures u == SetTask(s, t, s.tasks[t].(wakeAt := 0)) && TaskOk(u, t)
    ensures Wake(s, t) == Attach(Remove(u, t), t, s.tasks[t].affinity)
  {
    u := SetTask(s, t, s.tasks[t].(wakeAt := 0));
    assert TaskOk(u, t);
    MarkReadyIs(u, t, s.tasks[t].affinity);
  }

  lemma WakeTasks(s: State, t: Ptr)
    requires MayWake(s, t)
    ensures Wake(s, t).tasks == s.tasks[t := Woken(s.tasks[t])]
    ensures Wake(s, t) == s.(tasks := Wake(s, t).tasks, cpus := Wake(s, t).cpus)
  {
    var u := WakeIs(s, t);
    RemoveCpus(u, t, s.tasks[t].affinity);
  }

  /** A wake-up puts the task last on the queue of its CPU, wherever it was before, and
      touches no other: a second wake-up of a queued task sends it to the back. */
  lemma WakeQueues(s: State, t: Ptr, c: Cpu)
    requires MayWake(s, t) && c < |s.cpus|
    ensures var q := s.cpus[c].runq;
            Wake(s, t).cpus[c] == s.cpus[c].(runq := if c == s.tasks[t].affinity then Without(q, t) + [t] else q)
  {
    var u := WakeIs(s, t);
    RemoveCpus(u, t, c);
    if !s.tasks[t].onRunq && c == s.tasks[t].affinity { WithoutAbsent(s.cpus[c].runq, t); }
  }

  lemma MarkCpu(s: State, t: Ptr, status: Status, wakeAt: nat, c: Cpu)
    requires s.cpus != [] && t in s.tasks && TaskOk(s, t) && c < |s.cpus|
    requires NoDup(s.cpus[c].runq)
    ensures var q := s.cpus[c].runq; var r := Mark(s, t, status, wakeAt);
            && r.cpus[c] == s.cpus[c].(runq := if c == s.tasks[t].affinity then Without(q, t) else q)
            && r.tasks == s.tasks[t := s.tasks[t].(onRunq := false, status := status, wakeAt := wakeAt)]
            && (c == s.tasks[t].affinity ==> t !in r.cpus[c].runq)
  {
    RemoveCpus(s, t, c);
    WithoutIn(s.cpus[c].runq, t);
    if !s.tasks[t].onRunq && c == s.tasks[t].affinity { WithoutAbsent(s.cpus[c].runq, t); }
  }

  lemma MarkMayWake(s: State, t: Ptr, status: Status, wakeAt: nat)
    requires Inv(s) && MayWake(s, t) && (status == Sleeping || status == IoWait)
    ensures MayWake(Mark(s, t, status, wakeAt), t)
    ensures forall c :: 0 <= c < |s.cpus| ==> NoDup(s.cpus[c].runq)
  {
    MarkKeeps(s, t, status, wakeAt);
    RemoveCpus(s, t, 0);
    assert TaskOk(Mark(s, t, status, wakeAt), t);
    forall c | 0 <= c < |s.cpus| ensures NoDup(s.cpus[c].runq) { assert CpuOk(s, c); }
  }

  lemma SameTasksAfterWake(s: State, m: State, t: Ptr)
    requires MayWake(s, t) && MayWake(m, t) && m.tasks == s.tasks[t := m.tasks[t]]
             && Woken(m.tasks[t]) == Woken(s.tasks[t])
    ensures Wake(m, t).tasks == Wake(s, t).tasks
  {
    WakeTasks(s, t);
    WakeTasks(m, t);
    assert m.tasks[t := Woken(s.tasks[t])] == s.tasks[t := Woken(s.tasks[t])];
  }

  lemma SameCpuAfterWake(s: State, m: State, t: Ptr, c: Cpu)
    requires MayWake(s, t) && MayWake(m, t) && m.tasks[t].affinity == s.tasks[t].affinity && c < |s.cpus| == |m.cpus|
    requires var q := s.cpus[c].runq;
             m.cpus[c] == s.cpus[c].(runq := if c == s.tasks[t].affinity then Without(q, t) else q)
    requires c == s.tasks[t].affinity ==> t !in m.cpus[c].runq
    ensures Wake(m, t).cpus[c] == Wake(s, t).cpus[c]
  {
    WakeQueues(s, t, c);
    WakeQueues(m, t, c);
    if c == s.tasks[t].affinity { WithoutAbsent(m.cpus[c].runq, t); }
  }

  /** A wake-up undoes a mark: it leaves what it would have left had the task not marked
      itself asleep at all, whatever the deadline. */
  lemma WakeUndoesMark(s: State, t: Ptr, status: Status, wakeAt: nat)
    requires Inv(s) && MayWake(s, t) && (status == Sleeping || status == IoWait)
    ensures MayWake(Mark(s, t, status, wakeAt), t)
    ensures Wake(Mark(s, t, status, wakeAt), t).tasks == Wake(s, t).tasks
    ensures Wake(Mark(s, t, status, wakeAt), t).cpus == Wake(s, t).cpus
  {
    MarkMayWake(s, t, status, wakeAt);
    MarkThenWake(s, t, status, wakeAt, Mark(s, t, status, wakeAt));
  }

  lemma MarkThenWakeCpu(s: State, t: Ptr, status: Status, wakeAt: nat, m: State, c: Cpu)
    requires MayWake(s, t) && m == Mark(s, t, status, wakeAt) && MayWake(m, t) && c < |s.cpus| && NoDup(s.cpus[c].runq)
    ensures |m.cpus| == |s.cpus| && Wake(m, t).cpus[c] == Wake(s, t).cpus[c]
  {
    MarkCpu(s, t, status, wakeAt, c);
    SameCpuAfterWake(s, m, t, c);
  }

  lemma MarkThenWakeTasks(s: State, t: Ptr, status: Status, wakeAt: nat, m: State)
    requires MayWake(s, t) && m == Mark(s, t, status, wakeAt) && MayWake(m, t)
    ensures Wake(m, t).tasks == Wake(s, t).tasks
  {
    RemoveCpus(s, t, s.tasks[t].affinity);
    assert Woken(m.tasks[t]) == Woken(s.tasks[t]);
    SameTasksAfterWake(s, m, t);
  }

  lemma MarkThenWake(s: State, t: Ptr, status: Status, wakeAt: nat, m: State)
    requires MayWake(s, t) && m == Mark(s, t, status, wakeAt) && MayWake(m, t)
    requires forall c :: 0 <= c < |s.cpus| ==> NoDup(s.cpus[c].runq)
    ensures Wake(m, t).tasks == Wake(s, t).tasks && Wake(m, t).cpus == Wake(s, t).cpus
  {
    MarkThenWakeTasks(s, t, status, wakeAt, m);
    forall c | 0 <= c < |s.cpus| ensures |m.cpus| == |s.cpus| && Wake(m, t).cpus[c] == Wake(s, t).cpus[c] {
      MarkThenWakeCpu(s, t, status, wakeAt, m, c);
    }
  }

  // ---- expired sleeps -----------------------------------------------------------

  /** The expired sleepers of CPU `c`, in list order. */
  function Expired(s: State, rest: seq<Ptr>, now: nat, c: Cpu): seq<Ptr>
    requires forall t :: t in rest ==> t in s.tasks
  {
    if rest == [] then []
    else
      var k := s.tasks[rest[0]];
      (if Due(k, now) && k.affinity == c then [rest[0]] else []) + Expired(s, rest[1..], now, c)
  }

  lemma {:induction false} SameExpired(s: State, u: State, rest: seq<Ptr>, now: nat, c: Cpu)
    requires forall t :: t in rest ==> t in s.tasks && t in u.tasks && u.tasks[t] == s.tasks[t]
    ensures Expired(u, rest, now, c) == Expired(s, rest, now, c)
  {
    if rest != [] { SameExpired(s, u, rest[1..], now, c); }
  }

  function AfterPoll(s: State, rest: seq<Ptr>, now: nat, t: Ptr): Task
    requires t in s.tasks
  {
    if t in rest && Due(s.tasks[t], now) then Woken(s.tasks[t]) else s.tasks[t]
  }

  ghost predicate Pollable(s: State, rest: seq<Ptr>) {
    NoDup(rest) && forall t :: t in rest ==> t in s.tasks && !IsIdle(s.tasks[t])
  }

  lemma WakeDue(s: State, t: Ptr, now: nat, c: Cpu)
    requires MayWake(s, t) && Due(s.tasks[t], now) && c < |s.cpus|
    ensures Wake(s, t).cpus[c] == s.cpus[c].(runq := s.cpus[c].runq + (if s.tasks[t].affinity == c then [t] else []))
  {
    WakeQueues(s, t, c);
    if s.tasks[t].affinity == c { WithoutAbsent(s.cpus[c].runq, t); }
    assert s.cpus[c].runq + [] == s.cpus[c].runq;
  }

  /** The state after the first task of the list has been looked at. */
  function PollHead(s: State, t: Ptr, now: nat): (r: State)
    requires s.cpus != [] && t in s.tasks
    ensures |r.cpus| == |s.cpus| && r.tasks.Keys == s.tasks.Keys
  {
    if Due(s.tasks[t], now) then Wake(s, t) else s
  }

  lemma PollHeadKeeps(s: State, t: Ptr, now: nat)
    requires Inv(s) && t in s.tasks && !IsIdle(s.tasks[t])
    ensures Inv(PollHead(s, t, now)) && MayWake(s, t) == (s.tasks[t].status != Zombie)
    ensures PollHead(s, t, now).tasks == (if Due(s.tasks[t], now) then s.tasks[t := Woken(s.tasks[t])] else s.tasks)
  {
    assert TaskOk(s, t);
    WakeKeeps(s, t);
    if Due(s.tasks[t], now) { WakeTasks(s, t); }
  }

  lemma PollTail(s: State, rest: seq<Ptr>, u: State)
    requires Pollable(s, rest) && rest != []
    requires u.tasks == s.tasks || u.tasks == s.tasks[rest[0] := Woken(s.tasks[rest[0]])]
    ensures Pollable(u, rest[1..])
  {
    assert forall i :: 0 <= i < |rest[1..]| ==> rest[1..][i] == rest[i + 1];
  }

  lemma PollHeadTask(s: State, rest: seq<Ptr>, now: nat, t: Ptr)
    requires NoDup(rest) && rest != [] && rest[0] in s.tasks && t in s.tasks
    requires forall x :: x in rest ==> x in s.tasks
    ensures var u := (if Due(s.tasks[rest[0]], now) then s.tasks[rest[0] := Woken(s.tasks[rest[0]])] else s.tasks);
            && rest[0] !in rest[1..]
            && (if t in rest[1..] && Due(u[t], now) then Woken(u[t]) else u[t]) == AfterPoll(s, rest, now, t)
  {
    assert rest == [rest[0]] + rest[1..];
    assert forall i :: 0 <= i < |rest[1..]| ==> rest[1..][i] == rest[i + 1];
  }

  lemma PollHeadQueue(s: State, t: Ptr, now: nat, c: Cpu, more: seq<Ptr>)
    requires s.cpus != [] && t in s.tasks && c < |s.cpus| && (Due(s.tasks[t], now) ==> MayWake(s, t))
    ensures var q := PollHead(s, t, now).cpus[c].runq;
            && PollHead(s, t, now).cpus[c] == s.cpus[c].(runq := q)
            && q + more == s.cpus[c].runq
               + ((if Due(s.tasks[t], now) && s.tasks[t].affinity == c then [t] else []) + more)
  {
    if Due(s.tasks[t], now) { WakeDue(s, t, now, c); }
    if Due(s.tasks[t], now) && s.tasks[t].affinity == c {
      assert (s.cpus[c].runq + [t]) + more == s.cpus[c].runq + ([t] + more);
    } else {
      assert [] + more == more;
    }
  }

  /** Polling wakes exactly the expired sleepers, and queues them behind the tasks that
      wait on their CPUs, in list order. */
  lemma {:induction false} PollWakesTheExpired(s: State, rest: seq<Ptr>, now: nat, t: Ptr, c: Cpu)
    requires Inv(s) && Pollable(s, rest) && t in s.tasks && c < |s.cpus|
    ensures PollSleep(s, rest, now).tasks[t] == AfterPoll(s, rest, now, t)
    ensures PollSleep(s, rest, now).cpus[c] == s.cpus[c].(runq := s.cpus[c].runq + Expired(s, rest, now, c))
    decreases |rest|
  {
    if rest == [] {
      assert s.cpus[c].runq + [] == s.cpus[c].runq;
    } else {
      var u := PollHead(s, rest[0], now);
      PollHeadKeeps(s, rest[0], now);
      PollTail(s, rest, u);
      PollWakesTheExpired(u, rest[1..], now, t, c);
      PollHeadTask(s, rest, now, t);
      SameExpired(s, u, rest[1..], now, c);
      PollHeadQueue(s, rest[0], now, c, Expired(s, rest[1..], now, c));
    }
  }

  /** The sweep over the whole task list leaves nobody asleep past its time. */
  lemma NobodyOversleeps(s: State, now: nat, t: Ptr)
    requires Inv(s) && t in s.tasks && !IsIdle(s.tasks[t])
    ensures !Due(PollSleep(s, s.list, now).tasks[t], now)
    ensures PollSleep(s, s.list, now).tasks[t].status == Ready <==> s.tasks[t].status == Ready || Due(s.tasks[t], now)
  {
    assert TaskOk(s, t);
    forall x | x in s.list ensures !IsIdle(s.tasks[x]) { assert TaskOk(s, x); }
    PollWakesTheExpired(s, s.list, now, t, 0);
  }

  // ---- the choice of the next task ----------------------------------------------

  ghost predicate MaySchedule(s: State, c: Cpu) {
    Inv(s) && c < |s.cpus| && s.cpus[c].from.None? && s.stack[c] == s.cpus[c].current && CpuOk(s, c)
  }

  /** The head of the queue; with an empty queue the task that runs, if it still
      wants to, or the idle task. */
  function Choice(s: State, c: Cpu): Ptr
    requires c < |s.cpus| && s.cpus[c].current in s.tasks
  {
    var l := s.cpus[c];
    if l.runq != [] then l.runq[0] else if s.tasks[l.current].status == Running then l.current else l.idle
  }

  /** The task that leaves goes to the back of the queue if it has not blocked. */
  predicate Requeues(s: State, c: Cpu)
    requires c < |s.cpus| && s.cpus[c].current in s.tasks
  {
    var k := s.tasks[s.cpus[c].current];
    Choice(s, c) != s.cpus[c].current && k.status == Running && !IsIdle(k)
  }

  function NextQueue(s: State, c: Cpu): seq<Ptr>
    requires c < |s.cpus| && s.cpus[c].current in s.tasks
  {
    var q := s.cpus[c].runq;
    (if q == [] then [] else q[1..]) + (if Requeues(s, c) then [s.cpus[c].current] else [])
  }

  lemma DispatchCpus(s: State, c: Cpu, next: Ptr, d: Cpu)
    requires MayTurn(s, c, next) && Lives(s, s.cpus[c].current, c) && TaskOk(s, s.cpus[c].current) && d < |s.cpus|
    ensures var k := s.tasks[s.cpus[c].current];
            var r := Dispatch(s, c, next);
            && r.tasks.Keys == s.tasks.Keys && |r.cpus| == |s.cpus|
            && (d != c ==> r.cpus[d] == s.cpus[d])
            && r.cpus[c].current == next && r.cpus[c].from == Some(s.cpus[c].current)
            && r.cpus[c].runq == s.cpus[c].runq + (if k.status == Running && !IsIdle(k) then [s.cpus[c].current]
                                                   else [])
            && r.tasks[next].status == Running
            && (k.status == Running && !IsIdle(k) ==> r.tasks[s.cpus[c].current].status == Ready)
  {
    var k := s.tasks[s.cpus[c].current];
    if k.status == Running && !IsIdle(k) {
      DispatchIs(s, c, next);
    } else {
      assert s.cpus[c].runq + [] == s.cpus[c].runq;
    }
  }

  ghost predicate Rescheduled(s: State, r: State, c: Cpu, d: Cpu)
    requires c < |s.cpus| && d < |s.cpus| && s.cpus[c].current in s.tasks
  {
    var cur, next := s.cpus[c].current, Choice(s, c);
    && |r.cpus| == |s.cpus| && r.tasks.Keys == s.tasks.Keys
    && r.cpus[c].current == next && r.cpus[c].runq == NextQueue(s, c)
    && next in r.tasks && r.tasks[next].status == Running
    && (next != cur ==> r.cpus[c].from == Some(cur))
    && (Requeues(s, c) ==> r.tasks[cur].status == Ready)
    && (d != c ==> r.cpus[d] == s.cpus[d])
  }

  /** A reschedule runs the choice, moves the rest of the queue up, sends a task that was
      still running to the back, and leaves the other CPUs alone. */
  lemma ScheduleRunsTheChoice(s: State, c: Cpu, d: Cpu)
    requires MaySchedule(s, c) && d < |s.cpus|
    ensures Rescheduled(s, Schedule(s, c), c, d)
  {
    var cur := s.cpus[c].current;
    assert TaskOk(s, cur);
    if s.cpus[c].runq != [] {
      var u := PopFirst(s, c);
      PoppedRuns(s, u, c, d);
    } else {
      assert TaskOk(s, s.cpus[c].idle);
      if s.tasks[cur].status != Running && s.cpus[c].idle != cur { DispatchCpus(s, c, s.cpus[c].idle, d); }
    }
  }

  /** The head is off the queue and may be turned to. */
  ghost predicate Popped(s: State, u: State, c: Cpu) {
    && s.cpus != [] && c < |s.cpus| && s.cpus[c].runq != []
    && var next := s.cpus[c].runq[0];
    && Lives(s, next, c) && TaskOk(s, next) && Lives(s, s.cpus[c].current, c) && u == Remove(s, next)
    && (next != s.cpus[c].current ==>
          MayTurn(u, c, next) && Lives(u, s.cpus[c].current, c) && TaskOk(u, s.cpus[c].current))
  }

  lemma PopFirst(s: State, c: Cpu) returns (u: State)
    requires MaySchedule(s, c) && s.cpus[c].runq != []
    ensures Popped(s, u, c)
  {
    var next := s.cpus[c].runq[0];
    assert Lives(s, next, c);
    assert TaskOk(s, next);
    u := Remove(s, next);
    RemoveCpus(s, next, c);
    DetachTask(s, next, s.cpus[c].current);
  }

  lemma PoppedRuns(s: State, u: State, c: Cpu, d: Cpu)
    requires Popped(s, u, c) && d < |s.cpus| && s.cpus[c].idle in s.tasks
    requires forall t :: t in s.cpus[c].runq ==> t in s.tasks
    ensures Rescheduled(s, Schedule(s, c), c, d)
  {
    var next := s.cpus[c].runq[0];
    RemoveCpus(s, next, c);
    RemoveCpus(s, next, d);
    if next != s.cpus[c].current { DispatchCpus(u, c, next, d); }
  }
}
