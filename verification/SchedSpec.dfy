/** The scheduler's shared state and its critical sections. Everything done in one
    hold of the task lock is one function here; a context switch is a step of its
    own, because it happens after the lock is let go. */
module SchedSpec {
  import opened Prelude

  type Cpu = nat
  /** The address of a task structure. Addresses are reused after a task is freed. */
  type Ptr = nat

  datatype Status = Running | Ready | Sleeping | IoWait | Zombie

  datatype Task = Task(
    pid: nat, ppid: nat, status: Status, affinity: Cpu, wakeAt: nat, onRunq: bool, onCpu: bool)

  datatype CpuLocal = CpuLocal(current: Ptr, idle: Ptr, from: Option<Ptr>, runq: seq<Ptr>)

  /** `stack` is the task whose kernel stack each CPU is really executing on.
      `reaping` holds the pointer a parent keeps between finding a dead child and
      freeing it. `panicked` records a failed kernel assertion. */
  datatype State = State(
    tasks: map<Ptr, Task>,
    list: seq<Ptr>,
    cpus: seq<CpuLocal>,
    stack: seq<Ptr>,
    reaping: map<Ptr, Ptr>,
    nextPid: nat,
    panicked: bool)

  predicate IsIdle(k: Task) { k.pid == 0 }

  function Normal(s: State, c: Cpu): Cpu { if c >= |s.cpus| then 0 else c }

  /** `q` without the first `t`. */
  function Without<T(==)>(q: seq<T>, t: T): seq<T> {
    if q == [] then [] else if q[0] == t then q[1..] else [q[0]] + Without(q[1..], t)
  }

  function SetTask(s: State, t: Ptr, k: Task): State { s.(tasks := s.tasks[t := k]) }

  function SetQueue(s: State, c: Cpu, q: seq<Ptr>): State
    requires c < |s.cpus|
  {
    s.(cpus := s.cpus[c := s.cpus[c].(runq := q)])
  }

  function Check(s: State, ok: bool): State { if ok then s else s.(panicked := true) }

  // ---- run queues ---------------------------------------------------------------

  function Remove(s: State, t: Ptr): (r: State)
    requires t in s.tasks && s.cpus != []
    ensures |r.cpus| == |s.cpus| && r.tasks.Keys == s.tasks.Keys
  {
    var k := s.tasks[t];
    if !k.onRunq then s
    else
      var c := Normal(s, k.affinity);
      Check(SetTask(SetQueue(s, c, Without(s.cpus[c].runq, t)), t, k.(onRunq := false)), k.status == Ready)
  }

  function Push(s: State, t: Ptr, c: Cpu): (r: State)
    requires t in s.tasks && s.cpus != []
    ensures |r.cpus| == |s.cpus| && r.tasks.Keys == s.tasks.Keys
  {
    if IsIdle(s.tasks[t]) then s
    else
      var d := Normal(s, c);
      var u := Remove(Check(s, s.tasks[t].status == Ready), t);
      SetTask(SetQueue(u, d, u.cpus[d].runq + [t]), t, u.tasks[t].(affinity := d, onRunq := true))
  }

  function Pop(s: State, c: Cpu): (r: (State, Option<Ptr>))
    requires c < |s.cpus| && forall t :: t in s.cpus[c].runq ==> t in s.tasks
    ensures |r.0.cpus| == |s.cpus| && r.0.tasks.Keys == s.tasks.Keys
    ensures r.1.Some? ==> r.1.value in s.tasks
  {
    var q := s.cpus[c].runq;
    if q == [] then (s, None) else (Remove(s, q[0]), Some(q[0]))
  }

  // ---- status changes -----------------------------------------------------------

  function MarkReady(s: State, t: Ptr, c: Cpu): (r: State)
    requires t in s.tasks && s.cpus != []
    ensures |r.cpus| == |s.cpus| && r.tasks.Keys == s.tasks.Keys
  {
    var k := s.tasks[t];
    if IsIdle(k) || k.status == Zombie then s
    else Push(SetTask(s, t, k.(status := Ready, wakeAt := 0)), t, c)
  }

  function Wake(s: State, t: Ptr): (r: State)
    requires t in s.tasks && s.cpus != []
    ensures |r.cpus| == |s.cpus| && r.tasks.Keys == s.tasks.Keys
  {
    if s.tasks[t].status == Zombie then s
    else MarkReady(SetTask(s, t, s.tasks[t].(wakeAt := 0)), t, s.tasks[t].affinity)
  }

  function Mark(s: State, t: Ptr, status: Status, wakeAt: nat): State
    requires t in s.tasks && s.cpus != []
  {
    var r := Remove(s, t);
    SetTask(r, t, r.tasks[t].(status := status, wakeAt := wakeAt))
  }

  function CancelSleep(s: State, t: Ptr): State
    requires t in s.tasks
  {
    var k := s.tasks[t];
    if k.status == Sleeping || k.status == IoWait then SetTask(s, t, k.(status := Running, wakeAt := 0)) else s
  }

  predicate Due(k: Task, now: nat) {
    (k.status == Sleeping || k.status == IoWait) && k.wakeAt != 0 && k.wakeAt <= now
  }

  function PollSleep(s: State, rest: seq<Ptr>, now: nat): (r: State)
    requires s.cpus != [] && forall t :: t in rest ==> t in s.tasks
    ensures |r.cpus| == |s.cpus| && r.tasks.Keys == s.tasks.Keys
    decreases |rest|
  {
    if rest == [] then s
    else
      var u := if Due(s.tasks[rest[0]], now) then Wake(s, rest[0]) else s;
      PollSleep(u, rest[1..], now)
  }

  // ---- schedule -----------------------------------------------------------------

  /** Leave `prev` for `next` on CPU `c`: all but the switch of stacks. */
  function Dispatch(s: State, c: Cpu, next: Ptr): State
    requires c < |s.cpus| && next in s.tasks && s.cpus[c].current in s.tasks
  {
    var prev := s.cpus[c].current;
    var k := s.tasks[prev];
    var u := if k.status == Running && !IsIdle(k) then MarkReady(s, prev, k.affinity) else s;
    SetTask(u, next, u.tasks[next].(onRunq := false, status := Running, onCpu := true))
    .(cpus := u.cpus[c := u.cpus[c].(current := next, from := Some(prev))])
  }

  function Schedule(s: State, c: Cpu): State
    requires c < |s.cpus| && s.cpus[c].current in s.tasks && s.cpus[c].idle in s.tasks
    requires forall t :: t in s.cpus[c].runq ==> t in s.tasks
  {
    var cur := s.cpus[c].current;
    var (u, popped) := Pop(s, c);
    if popped.None? && u.tasks[cur].status == Running then u
    else
      var next := if popped.Some? then popped.value else s.cpus[c].idle;
      if next == cur then SetTask(u, next, u.tasks[next].(status := Running))
      else Dispatch(u, c, next)
  }

  function FinishSwitch(s: State, c: Cpu): State
    requires c < |s.cpus| && s.cpus[c].from.Some? && s.cpus[c].from.value in s.tasks
  {
    var p := s.cpus[c].from.value;
    SetTask(s, p, s.tasks[p].(onCpu := false)).(cpus := s.cpus[c := s.cpus[c].(from := None)])
  }

  // ---- birth and death ----------------------------------------------------------

  /** Publish a new task on `first`, then let the rebalancing move it to `final`. */
  function Spawn(s: State, t: Ptr, ppid: nat, first: Cpu, final: Cpu): State
    requires t !in s.tasks && s.cpus != []
  {
    var u := s.(tasks := s.tasks[t := Task(s.nextPid, ppid, Running, 0, 0, false, false)], nextPid := s.nextPid + 1);
    var v := MarkReady(u, t, first);
    Push(v.(list := [t] + v.list), t, final)
  }

  /** Hand the living children of `pid` to process 1. */
  function Reparent(s: State, pid: nat): State {
    s.(tasks := map t | t in s.tasks ::
      if t in s.list && s.tasks[t].ppid == pid && s.tasks[t].status != Zombie then s.tasks[t].(ppid := 1)
        else s.tasks[t])
  }

  predicate ZombieChild(s: State, t: Ptr, parent: nat) {
    t in s.tasks && s.tasks[t].ppid == parent && s.tasks[t].status == Zombie
  }

  function FindZombie(s: State, rest: seq<Ptr>, parent: nat): (r: Option<Ptr>)
    ensures r.Some? ==> r.value in rest && ZombieChild(s, r.value, parent)
    ensures r.None? ==> forall t :: t in rest ==> !ZombieChild(s, t, parent)
  {
    if rest == [] then None
    else if ZombieChild(s, rest[0], parent) then Some(rest[0])
    else FindZombie(s, rest[1..], parent)
  }

  /** It is the first in list order. */
  lemma {:induction false} FindZombieIsFirst(s: State, rest: seq<Ptr>, parent: nat) returns (i: nat)
    requires FindZombie(s, rest, parent).Some?
    ensures i < |rest| && FindZombie(s, rest, parent) == Some(rest[i]) && ZombieChild(s, rest[i], parent)
    ensures forall j :: 0 <= j < i ==> !ZombieChild(s, rest[j], parent)
  {
    if ZombieChild(s, rest[0], parent) {
      i := 0;
    } else {
      var k := FindZombieIsFirst(s, rest[1..], parent);
      i := k + 1;
      forall j | 0 <= j < i ensures !ZombieChild(s, rest[j], parent) { assert j > 0 ==> rest[j] == rest[1..][j - 1]; }
    }
  }

  /** Does the locked part of the reaper free `t`? */
  predicate Frees(s: State, t: Ptr) {
    t in s.tasks && s.tasks[t].status == Zombie && !s.tasks[t].onCpu && t in s.list
  }

  /** The reaper `p` gives up its pointer, and frees the task if it may. */
  function Reap(s: State, p: Ptr, t: Ptr): State
    requires t in s.tasks && s.cpus != []
  {
    if !Frees(s, t) then s.(reaping := s.reaping - {p})
    else
      var u := Remove(Check(s, !IsIdle(s.tasks[t])), t);
      u.(tasks := u.tasks - {t}, list := Without(u.list, t), reaping := u.reaping - {p, t})
  }
}
