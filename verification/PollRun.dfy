/** Runs of readers, writers, closers and pollers. */
module PollRun {
  import opened Prelude
  import opened PipeSpec
  import opened PipeSmp
  import opened PipeSmpProps
  import opened PollProps

  // ---- the poller's own steps ---------------------------------------------------

  lemma RegisterKeeps(s: State, t: Tid, f: Fd, g: Fd)
    requires Held(s, t, g)
    ensures Held(DoRegister(s, t, f).0, t, g)
  {
  }

  lemma RegisterFirst(s: State, t: Tid, f: Fd)
    ensures DoRegister(s, t, f).1 ==> Registered(DoRegister(s, t, f).0, t, f)
  {
  }

  lemma SamePipesHeld(s: State, r: State, t: Tid, f: Fd)
    requires r.pipes == s.pipes && Held(s, t, f)
    ensures Held(r, t, f)
  {
  }

  lemma OwnRegister(s: State, t: Tid)
    requires Enabled(s, RegisterOne(t)) && PollOk(s, t)
    ensures PollOk(Apply(s, RegisterOne(t)), t)
  {
    var c := PcOf(s, t);
    var f := c.fds[c.i];
    var (u, ok) := DoRegister(s, t, f);
    var r := SetPc(u, t, Register(c.fds, c.i + 1, c.limit, c.all && ok));
    if c.all && ok {
      RegisterFirst(s, t, f);
      forall j | 0 <= j <= c.i && Asks(c.fds[j]) ensures Held(r, t, c.fds[j]) {
        if j < c.i { RegisterKeeps(s, t, f, c.fds[j]); }
        SamePipesHeld(u, r, t, c.fds[j]);
      }
    }
  }

  lemma OwnMark(s: State, t: Tid)
    requires Enabled(s, MarkAsleep(t)) && PollOk(s, t)
    ensures PollOk(Apply(s, MarkAsleep(t)), t)
  {
    var c := PcOf(s, t);
    var r := Apply(s, MarkAsleep(t));
    forall j | 0 <= j < |c.fds| && Held(s, t, c.fds[j]) ensures Held(r, t, c.fds[j]) {}
  }

  /** A descriptor found unready is registered still, or dead. */
  lemma OwnRescan(s: State, t: Tid)
    requires Enabled(s, RescanOne(t)) && PollOk(s, t)
    ensures PollOk(Apply(s, RescanOne(t)), t)
  {
    var c := PcOf(s, t);
    var r := Apply(s, RescanOne(t));
    forall f | Held(s, t, f) ensures Held(r, t, f) {}
    forall f | Caught(s, t, f) ensures Caught(r, t, f) { if Pending(s, t) { SamePc(s, r, t, t); } }
    var f := c.fds[c.i];
    if St(s, t) == Asleep(false) && Asks(f) && !Ready(s, f) { assert Caught(r, t, f); }
  }

  lemma OwnSettle(s: State, t: Tid, interrupted: bool)
    requires Enabled(s, Settle(t, interrupted)) && PollOk(s, t)
    ensures PollOk(Apply(s, Settle(t, interrupted)), t)
  {
    var r := Apply(s, Settle(t, interrupted));
    if St(r, t) == Asleep(false) {
      forall f | Caught(s, t, f) ensures Caught(r, t, f) { if Pending(s, t) { SamePc(s, r, t, t); } }
    }
  }

  lemma OwnSignal(s: State, t: Tid)
    requires PollOk(s, t)
    ensures PollOk(Apply(s, Signal(t)), t)
  {
    forall f | Held(s, t, f) ensures Held(Apply(s, Signal(t)), t, f) { SamePipesHeld(s, Apply(s, Signal(t)), t, f); }
  }

  lemma OwnPoll(s: State, step: Step)
    requires PollInv(s) && Enabled(s, step)
    ensures PollOk(Apply(s, step), step.t)
  {
    assert PollOk(s, step.t) && BlockOk(s, step.t);
    if step.RegisterOne? {
      OwnRegister(s, step.t);
    } else if step.MarkAsleep? {
      OwnMark(s, step.t);
    } else if step.RescanOne? {
      OwnRescan(s, step.t);
    } else if step.Settle? {
      OwnSettle(s, step.t, step.interrupted);
    } else if step.Signal? {
      OwnSignal(s, step.t);
    } else {
      OwnRest(s, step);
    }
  }

  /** After the remaining steps the task is not between registering and waking. */
  lemma OwnRest(s: State, step: Step)
    requires Enabled(s, step) && BlockOk(s, step.t)
    requires !step.RegisterOne? && !step.MarkAsleep? && !step.RescanOne? && !step.Settle? && !step.Signal?
    ensures PollOk(Apply(s, step), step.t)
  {
    var c := PcOf(Apply(s, step), step.t);
    assert !c.Rescan? && !c.PollWait? && (c.Register? ==> c.i == 0);
  }

  lemma OwnFds(s: State, step: Step)
    requires Enabled(s, step) && BlockOk(s, step.t) && Polls(PcOf(Apply(s, step), step.t))
    ensures !step.Close?
    ensures !step.CallPoll? ==> Polls(PcOf(s, step.t)) && PcOf(Apply(s, step), step.t).fds == PcOf(s, step.t).fds
    ensures step.CallPoll? ==> PcOf(Apply(s, step), step.t).fds == step.fds
  {
  }

  lemma OwnEnds(s: State, step: Step)
    requires PollInv(s) && Enabled(s, step)
    ensures EndsOk(Apply(s, step), step.t)
  {
    var r := Apply(s, step);
    assert EndsOk(s, step.t) && BlockOk(s, step.t);
    if Polls(PcOf(r, step.t)) {
      OwnFds(s, step);
      forall f | f in PcOf(r, step.t).fds ensures EndCount(r, f) > 0 { CountsSame(s, step, f.p); }
    }
  }

  lemma StepAnonymous(s: State, step: Step)
    requires Enabled(s, step) && Anonymous(s)
    ensures Anonymous(Apply(s, step))
  {
    var r := Apply(s, step);
    forall p ensures At(r, p).readers <= 1 && At(r, p).writers <= 1 {
      assert At(s, p).readers <= 1 && At(s, p).writers <= 1;
      if !step.Close? || step.p != p { CountsSame(s, step, p); }
    }
  }

  lemma PollStepKeeps(s: State, step: Step)
    requires PollInv(s) && Enabled(s, step) && Roomy(s, step) && Friendly(s, step)
    ensures PollInv(Apply(s, step))
  {
    var r := Apply(s, step);
    StepKeeps(s, step);
    StepAnonymous(s, step);
    forall t ensures PollOk(r, t) && EndsOk(r, t) {
      assert FriendlyTo(s, step, t);
      if t == step.t {
        OwnPoll(s, step);
        OwnEnds(s, step);
      } else {
        OtherPoll(s, step, t);
      }
    }
  }

  // ---- runs ---------------------------------------------------------------------

  function NewPipe(): Pipe { Pipe([], 1, 1, {}, {}, [], []) }

  ghost function Start(ids: set<PipeId>): State {
    State(map p | p in ids :: NewPipe(), map[], map[])
  }

  lemma StartInv(ids: set<PipeId>)
    ensures PollInv(Start(ids))
  {
    var s := Start(ids);
    forall p ensures PipeOk(At(s, p)) && At(s, p).readers <= 1 && At(s, p).writers <= 1 {}
    forall t ensures BlockOk(s, t) && PollOk(s, t) && EndsOk(s, t) { assert PcOf(s, t) == Out; }
  }

  ghost predicate AllEnabled(s: State, steps: seq<Step>)
    decreases |steps|
  {
    steps == [] || (Enabled(s, steps[0]) && AllEnabled(Apply(s, steps[0]), steps[1..]))
  }

  ghost function Run(s: State, steps: seq<Step>): State
    requires AllEnabled(s, steps)
    decreases |steps|
  {
    if steps == [] then s else Run(Apply(s, steps[0]), steps[1..])
  }

  ghost predicate AllRoomy(s: State, steps: seq<Step>)
    requires AllEnabled(s, steps)
    decreases |steps|
  {
    steps == [] || (Roomy(s, steps[0]) && AllRoomy(Apply(s, steps[0]), steps[1..]))
  }

  ghost predicate AllFriendly(s: State, steps: seq<Step>)
    requires AllEnabled(s, steps)
    decreases |steps|
  {
    steps == [] || (Friendly(s, steps[0]) && AllFriendly(Apply(s, steps[0]), steps[1..]))
  }

  lemma {:induction false} RunKeeps(s: State, steps: seq<Step>)
    requires Inv(s) && AllEnabled(s, steps) && AllRoomy(s, steps)
    ensures Inv(Run(s, steps))
    decreases |steps|
  {
    if steps != [] {
      StepKeeps(s, steps[0]);
      RunKeeps(Apply(s, steps[0]), steps[1..]);
    }
  }

  lemma {:induction false} PollRunKeeps(s: State, steps: seq<Step>)
    requires PollInv(s) && AllEnabled(s, steps) && AllRoomy(s, steps) && AllFriendly(s, steps)
    ensures PollInv(Run(s, steps))
    decreases |steps|
  {
    if steps != [] {
      PollStepKeeps(s, steps[0]);
      PollRunKeeps(Apply(s, steps[0]), steps[1..]);
    }
  }

  /** In every reachable state the bytes read followed by the bytes buffered are the
      bytes accepted, and nobody sleeps in a read or a write that could go on. */
  lemma BlockingIsExact(ids: set<PipeId>, steps: seq<Step>, t: Tid, p: PipeId)
    requires AllEnabled(Start(ids), steps) && AllRoomy(Start(ids), steps)
    ensures var s := Run(Start(ids), steps);
            && At(s, p).accepted == At(s, p).delivered + At(s, p).buf
            && (PcOf(s, t).ReadWait? && PcOf(s, t).p == p && St(s, t) != Awake && !Pending(s, t) ==>
                  t in At(s, p).rwq && At(s, p).buf == [] && At(s, p).writers > 0)
            && (PcOf(s, t).WriteWait? && PcOf(s, t).p == p && St(s, t) != Awake && !Pending(s, t) ==>
                  t in At(s, p).wwq && |At(s, p).buf| == PIPE_BUF_SIZE && At(s, p).readers > 0)
  {
    StartInv(ids);
    RunKeeps(Start(ids), steps);
    var s := Run(Start(ids), steps);
    assert BlockOk(s, t) && PipeOk(At(s, p));
  }

  /** A poll asleep without a deadline has nothing ready, or a wake-up is on its way. */
  lemma PollLosesNoWakeup(ids: set<PipeId>, steps: seq<Step>, t: Tid, f: Fd)
    requires AllEnabled(Start(ids), steps) && AllRoomy(Start(ids), steps) && AllFriendly(Start(ids), steps)
    requires var s := Run(Start(ids), steps);
             PcOf(s, t).PollWait? && St(s, t) == Asleep(false) && f in PcOf(s, t).fds && Asks(f) && Ready(s, f)
    ensures Pending(Run(Start(ids), steps), t)
  {
    StartInv(ids);
    PollRunKeeps(Start(ids), steps);
    var s := Run(Start(ids), steps);
    assert PollOk(s, t);
    var j :| 0 <= j < |PcOf(s, t).fds| && PcOf(s, t).fds[j] == f;
    assert Caught(s, t, PcOf(s, t).fds[j]);
  }

  // ---- end of file --------------------------------------------------------------

  predicate InWrite(c: Pc, p: PipeId) {
    ((c.Writing? || c.WriteWait?) && c.p == p) || (c.Waking? && c.next.Writing? && c.next.p == p)
  }

  /** No writers, nobody inside a write, nothing buffered: the reader has had it all. */
  ghost predicate AtEof(s: State, p: PipeId) {
    && At(s, p).buf == [] && At(s, p).writers == 0 && At(s, p).delivered == At(s, p).accepted
    && forall t :: !InWrite(PcOf(s, t), p)
  }

  /** A read reports end of file only when every accepted byte has been read. */
  lemma EofAfterEverything(s: State, t: Tid)
    requires Inv(s) && Enabled(s, Read(t)) && PcOf(s, t).want > 0
    requires Apply(s, Read(t)) == SetPc(s, t, Out)
    ensures var x := At(s, PcOf(s, t).p); x.delivered == x.accepted && x.writers == 0
  {
    var p := PcOf(s, t).p;
    assert PipeOk(At(s, p));
    assert PcOf(SetPc(s, t, Out), t) == Out;
  }

  lemma EofTake(s: State, step: Step, p: PipeId)
    requires Enabled(s, step) && Takes(step) && !InWrite(PcOf(s, step.t), p)
    requires var x := At(s, p); x.buf == [] && x.writers == 0 && x.delivered == x.accepted
    ensures var x := At(Apply(s, step), p); x.buf == [] && x.writers == 0 && x.delivered == x.accepted
  {
  }

  lemma EofEdit(s: State, step: Step, p: PipeId)
    requires Enabled(s, step) && EditsQueue(step)
    requires var x := At(s, p); x.buf == [] && x.writers == 0 && x.delivered == x.accepted
    ensures var x := At(Apply(s, step), p); x.buf == [] && x.writers == 0 && x.delivered == x.accepted
  {
  }

  lemma EofPipe(s: State, step: Step, p: PipeId)
    requires Inv(s) && Enabled(s, step) && AtEof(s, p)
    ensures var x := At(Apply(s, step), p); x.buf == [] && x.writers == 0 && x.delivered == x.accepted
  {
    assert !InWrite(PcOf(s, step.t), p);
    if Takes(step) {
      EofTake(s, step, p);
    } else if EditsQueue(step) {
      EofEdit(s, step, p);
    } else {
      StillPipes(s, step);
    }
  }

  lemma EofPc(s: State, step: Step, p: PipeId)
    requires Enabled(s, step) && BlockOk(s, step.t) && !InWrite(PcOf(s, step.t), p) && At(s, p).writers == 0
    ensures !InWrite(PcOf(Apply(s, step), step.t), p)
  {
  }

  lemma EofStep(s: State, step: Step, p: PipeId)
    requires Inv(s) && Enabled(s, step) && AtEof(s, p)
    ensures AtEof(Apply(s, step), p)
  {
    var r := Apply(s, step);
    EofPipe(s, step, p);
    forall t ensures !InWrite(PcOf(r, t), p) {
      assert BlockOk(s, t) && !InWrite(PcOf(s, t), p);
      if t != step.t { StepRel(s, step, t); } else { EofPc(s, step, p); }
    }
  }

  /** After end of file nothing more ever comes. */
  lemma {:induction false} EofIsFinal(s: State, steps: seq<Step>, p: PipeId)
    requires Inv(s) && AllEnabled(s, steps) && AllRoomy(s, steps) && AtEof(s, p)
    ensures AtEof(Run(s, steps), p)
    decreases |steps|
  {
    if steps != [] {
      StepKeeps(s, steps[0]);
      EofStep(s, steps[0], p);
      EofIsFinal(Apply(s, steps[0]), steps[1..], p);
    }
  }

  /** Nobody can add a byte any more. */
  ghost predicate WritersGone(s: State, p: PipeId) {
    At(s, p).writers == 0 && forall t :: !InWrite(PcOf(s, t), p)
  }

  lemma GoneStep(s: State, step: Step, p: PipeId)
    requires Inv(s) && Enabled(s, step) && WritersGone(s, p)
    ensures WritersGone(Apply(s, step), p)
  {
    var r := Apply(s, step);
    if !step.Close? || step.p != p { CountsSame(s, step, p); }
    forall t ensures !InWrite(PcOf(r, t), p) {
      assert BlockOk(s, t) && !InWrite(PcOf(s, t), p);
      if t != step.t { StepRel(s, step, t); } else { EofPc(s, step, p); }
    }
  }

  lemma {:induction false} GoneStays(s: State, steps: seq<Step>, p: PipeId)
    requires Inv(s) && AllEnabled(s, steps) && AllRoomy(s, steps) && WritersGone(s, p)
    ensures WritersGone(Run(s, steps), p) && Inv(Run(s, steps))
    decreases |steps|
  {
    if steps != [] {
      StepKeeps(s, steps[0]);
      GoneStep(s, steps[0], p);
      GoneStays(Apply(s, steps[0]), steps[1..], p);
    }
  }

  /** The close of the last write end, with nobody inside a write, is the end of writing. */
  lemma LastCloseEndsWriting(s: State, u: Tid, p: PipeId)
    requires Enabled(s, Close(u, p, false)) && At(s, p).writers == 1 && forall t :: !InWrite(PcOf(s, t), p)
    ensures WritersGone(Apply(s, Close(u, p, false)), p)
  {
    var r := Apply(s, Close(u, p, false));
    forall t ensures !InWrite(PcOf(r, t), p) { assert !InWrite(PcOf(s, t), p); }
  }

  /** After that close, whatever happens first, the first read to report end of file has
      seen everything accepted, and nothing comes after it, whatever happens next. */
  lemma EofAfterLastClose(s: State, u: Tid, p: PipeId, before: seq<Step>, t: Tid, after: seq<Step>)
    requires Inv(s) && Enabled(s, Close(u, p, false)) && At(s, p).writers == 1 && forall x :: !InWrite(PcOf(s, x), p)
    requires var c := Apply(s, Close(u, p, false)); AllEnabled(c, before) && AllRoomy(c, before)
    requires var m := Run(Apply(s, Close(u, p, false)), before);
             && Enabled(m, Read(t)) && PcOf(m, t).p == p && PcOf(m, t).want > 0 && At(m, p).buf == []
    requires var r := Apply(Run(Apply(s, Close(u, p, false)), before), Read(t));
             AllEnabled(r, after) && AllRoomy(r, after)
    ensures AtEof(Run(Apply(Run(Apply(s, Close(u, p, false)), before), Read(t)), after), p)
  {
    var c := Apply(s, Close(u, p, false));
    StepKeeps(s, Close(u, p, false));
    LastCloseEndsWriting(s, u, p);
    GoneStays(c, before, p);
    var m := Run(c, before);
    assert PipeOk(At(m, p));
    StepKeeps(m, Read(t));
    EofStep(m, Read(t), p);
    EofIsFinal(Apply(m, Read(t)), after, p);
  }

  // ---- where the assumptions are needed -----------------------------------------

  /** With no wake-up under way, a reader that goes to sleep is safe if and only if the
      queue has a slot for it: the code does not look whether it was queued. */
  lemma ReaderSafeIffQueued(s: State, t: Tid)
    requires Enabled(s, Read(t)) && !Pending(s, t)
    requires var x := At(s, PcOf(s, t).p); x.buf == [] && x.writers > 0
    ensures BlockOk(Apply(s, Read(t)), t) <==> HasRoom(At(s, PcOf(s, t).p).rwq, t)
  {
  }
}
