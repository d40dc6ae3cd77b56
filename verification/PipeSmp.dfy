/** Readers, writers, closers and pollers of pipes on several CPUs. Each hold of a
    pipe's lock is one step; the wake-ups that follow it are steps of their own. */
module PipeSmp {
  import opened Prelude
  import opened PipeSpec

  type Tid = nat
  type PipeId = nat

  const WAITQ_MAX := 4

  /** `accepted` and `delivered` are the bytes written and read so far, in the order
      of the lock. */
  datatype Pipe = Pipe(
    buf: seq<Byte>, readers: nat, writers: nat, rwq: set<Tid>, wwq: set<Tid>,
    accepted: seq<Byte>, delivered: seq<Byte>)

  /** A polled descriptor: the end it holds and the events asked for. */
  datatype Fd = Fd(p: PipeId, readEnd: bool, pollIn: bool, pollOut: bool)

  datatype Sleep = Awake | Asleep(timed: bool)

  datatype Pc =
    | Out
    | Reading(p: PipeId, want: nat)
    | ReadWait(p: PipeId, want: nat)                  // marked asleep and queued
    | Writing(p: PipeId, data: seq<Byte>)
    | WriteWait(p: PipeId, data: seq<Byte>)
    | Waking(list: set<Tid>, next: Pc)                // tasks still to wake
    | Scan(fds: seq<Fd>, i: nat, limit: bool, hit: bool)
    | Register(fds: seq<Fd>, i: nat, limit: bool, all: bool)
    | Rescan(fds: seq<Fd>, i: nat, limit: bool, hit: bool)  // marked asleep
    | PollWait(fds: seq<Fd>, limit: bool)
    | Clear(fds: seq<Fd>, i: nat, limit: bool)

  datatype State = State(pipes: map<PipeId, Pipe>, status: map<Tid, Sleep>, pc: map<Tid, Pc>)

  function At(s: State, p: PipeId): Pipe { if p in s.pipes then s.pipes[p] else Pipe([], 0, 0, {}, {}, [], []) }
  function St(s: State, t: Tid): Sleep { if t in s.status then s.status[t] else Awake }
  function PcOf(s: State, t: Tid): Pc { if t in s.pc then s.pc[t] else Out }

  function SetPipe(s: State, p: PipeId, x: Pipe): State { s.(pipes := s.pipes[p := x]) }
  function SetPc(s: State, t: Tid, c: Pc): State { s.(pc := s.pc[t := c]) }
  function SetSt(s: State, t: Tid, x: Sleep): State { s.(status := s.status[t := x]) }

  predicate HasRoom(q: set<Tid>, t: Tid) { t in q || |q| < WAITQ_MAX }
  function Enqueue(q: set<Tid>, t: Tid): set<Tid> { if HasRoom(q, t) then q + {t} else q }

  /** The poll result of a pipe descriptor is not empty. */
  predicate Ready(s: State, f: Fd) {
    var x := At(s, f.p);
    || (f.pollIn && x.buf != [])
    || (f.pollOut && |x.buf| < PIPE_BUF_SIZE)
    || x.writers == 0
    || (x.readers == 0 && f.pollOut)
  }

  datatype Step =
    | CallRead(t: Tid, p: PipeId, want: nat)
    | CallWrite(t: Tid, p: PipeId, data: seq<Byte>)
    | CallPoll(t: Tid, fds: seq<Fd>, limit: bool)
    | Read(t: Tid)
    | Write(t: Tid)
    | Retry(t: Tid)                       // a blocked reader or writer runs again
    | WakeOne(t: Tid, x: Tid)
    | WokeAll(t: Tid)
    | Close(t: Tid, p: PipeId, readEnd: bool)
    | Signal(t: Tid)                      // any other wake-up
    | ScanOne(t: Tid)
    | ScanDone(t: Tid, giveUp: bool)      // timed out or interrupted
    | RegisterOne(t: Tid)
    | MarkAsleep(t: Tid)
    | RescanOne(t: Tid)
    | Settle(t: Tid, interrupted: bool)   // cancel the sleep if something was ready
    | PollResume(t: Tid)
    | ClearOne(t: Tid)
    | ClearDone(t: Tid)

  predicate Enabled(s: State, step: Step) {
    match step
    case CallRead(t, p, want) => PcOf(s, t) == Out && At(s, p).readers > 0
    case CallWrite(t, p, data) => PcOf(s, t) == Out && At(s, p).writers > 0
    case CallPoll(t, fds, limit) =>
      PcOf(s, t) == Out && forall f :: f in fds ==> (if f.readEnd then At(s, f.p).readers else At(s, f.p).writers) > 0
    case Read(t) => PcOf(s, t).Reading?
    case Write(t) => PcOf(s, t).Writing?
    case Retry(t) => (PcOf(s, t).ReadWait? || PcOf(s, t).WriteWait?) && St(s, t) == Awake
    case WakeOne(t, x) => PcOf(s, t).Waking? && x in PcOf(s, t).list
    case WokeAll(t) => PcOf(s, t).Waking? && PcOf(s, t).list == {}
    case Close(t, p, readEnd) => PcOf(s, t) == Out && (if readEnd then At(s, p).readers else At(s, p).writers) > 0
    case Signal(t) => true
    case ScanOne(t) => PcOf(s, t).Scan? && PcOf(s, t).i < |PcOf(s, t).fds|
    case ScanDone(t, giveUp) => PcOf(s, t).Scan? && PcOf(s, t).i >= |PcOf(s, t).fds|
    case RegisterOne(t) => PcOf(s, t).Register? && PcOf(s, t).i < |PcOf(s, t).fds|
    case MarkAsleep(t) => PcOf(s, t).Register? && PcOf(s, t).i >= |PcOf(s, t).fds|
    case RescanOne(t) => PcOf(s, t).Rescan? && PcOf(s, t).i < |PcOf(s, t).fds|
    case Settle(t, interrupted) => PcOf(s, t).Rescan? && PcOf(s, t).i >= |PcOf(s, t).fds|
    case PollResume(t) => PcOf(s, t).PollWait? && St(s, t) == Awake
    case ClearOne(t) => PcOf(s, t).Clear? && PcOf(s, t).i < |PcOf(s, t).fds|
    case ClearDone(t) => PcOf(s, t).Clear? && PcOf(s, t).i >= |PcOf(s, t).fds|
  }

  function DoRead(s: State, t: Tid, p: PipeId, want: nat): State {
    var x := At(s, p);
    if x.buf == [] && x.writers == 0 then SetPc(s, t, Out)
    else if x.buf == [] then
      SetPc(SetSt(SetPipe(s, p, x.(rwq := Enqueue(x.rwq, t))), t, Asleep(false)), t, ReadWait(p, want))
    else
      var n := Min(want, |x.buf|);
      SetPc(SetPipe(s, p, x.(buf := x.buf[n..], delivered := x.delivered + x.buf[..n], wwq := {})), t,
            Waking(x.wwq, Out))
  }

  function DoWrite(s: State, t: Tid, p: PipeId, data: seq<Byte>): State {
    var x := At(s, p);
    if data == [] || x.readers == 0 then SetPc(s, t, Out)
    else if |x.buf| >= PIPE_BUF_SIZE then
      SetPc(SetSt(SetPipe(s, p, x.(wwq := Enqueue(x.wwq, t))), t, Asleep(false)), t, WriteWait(p, data))
    else
      var n := Fits(x.buf, data);
      SetPc(SetPipe(s, p, x.(buf := x.buf + data[..n], accepted := x.accepted + data[..n], rwq := {})), t,
            Waking(x.rwq, Writing(p, data[n..])))
  }

  function DoClose(s: State, t: Tid, p: PipeId, readEnd: bool): State
    requires (if readEnd then At(s, p).readers else At(s, p).writers) > 0
  {
    var x := At(s, p);
    var y := if readEnd then x.(readers := x.readers - 1) else x.(writers := x.writers - 1);
    SetPc(SetPipe(s, p, y.(rwq := {}, wwq := {})), t, Waking(x.rwq + x.wwq, Out))
  }

  function DoRetry(s: State, t: Tid): State
    requires PcOf(s, t).ReadWait? || PcOf(s, t).WriteWait?
  {
    var c := PcOf(s, t);
    var x := At(s, c.p);
    if c.ReadWait? then SetPc(SetPipe(s, c.p, x.(rwq := x.rwq - {t})), t, Reading(c.p, c.want))
    else SetPc(SetPipe(s, c.p, x.(wwq := x.wwq - {t})), t, Writing(c.p, c.data))
  }

  function DoRegister(s: State, t: Tid, f: Fd): (State, bool) {
    var x := At(s, f.p);
    var y := if f.pollIn then x.(rwq := Enqueue(x.rwq, t)) else x;
    var z := if f.pollOut then y.(wwq := Enqueue(y.wwq, t)) else y;
    (SetPipe(s, f.p, z), (f.pollIn ==> t in z.rwq) && (f.pollOut ==> t in z.wwq))
  }

  function DoClear(s: State, t: Tid, f: Fd): State {
    var x := At(s, f.p);
    SetPipe(s, f.p, x.(rwq := x.rwq - {t}, wwq := x.wwq - {t}))
  }

  function Apply(s: State, step: Step): State
    requires Enabled(s, step)
  {
    var t := step.t;
    var c := PcOf(s, t);
    match step
    case CallRead(_, p, want) => SetPc(s, t, Reading(p, want))
    case CallWrite(_, p, data) => SetPc(s, t, Writing(p, data))
    case CallPoll(_, fds, limit) => SetPc(s, t, Scan(fds, 0, limit, false))
    case Read(_) => DoRead(s, t, c.p, c.want)
    case Write(_) => DoWrite(s, t, c.p, c.data)
    case Retry(_) => DoRetry(s, t)
    case WakeOne(_, x) =>
      var u := SetPc(s, t, Waking(c.list - {x}, c.next));
      if St(s, x) == Awake then u else SetSt(u, x, Awake)
    case WokeAll(_) => SetPc(s, t, c.next)
    case Close(_, p, readEnd) => DoClose(s, t, p, readEnd)
    case Signal(_) => SetSt(s, t, Awake)
    case ScanOne(_) => SetPc(s, t, Scan(c.fds, c.i + 1, c.limit, c.hit || Ready(s, c.fds[c.i])))
    case ScanDone(_, giveUp) => SetPc(s, t, if c.hit || giveUp then Out else Register(c.fds, 0, c.limit, true))
    case RegisterOne(_) =>
      var (u, ok) := DoRegister(s, t, c.fds[c.i]);
      SetPc(u, t, Register(c.fds, c.i + 1, c.limit, c.all && ok))
    case MarkAsleep(_) => SetPc(SetSt(s, t, Asleep(c.limit || !c.all)), t, Rescan(c.fds, 0, c.limit, false))
    case RescanOne(_) => SetPc(s, t, Rescan(c.fds, c.i + 1, c.limit, c.hit || Ready(s, c.fds[c.i])))
    case Settle(_, interrupted) =>
      var u := if c.hit || interrupted then SetSt(s, t, Awake) else s;
      SetPc(u, t, PollWait(c.fds, c.limit))
    case PollResume(_) => SetPc(s, t, Clear(c.fds, 0, c.limit))
    case ClearOne(_) => SetPc(DoClear(s, t, c.fds[c.i]), t, Clear(c.fds, c.i + 1, c.limit))
    case ClearDone(_) => SetPc(s, t, Scan(c.fds, 0, c.limit, false))
  }
}
