/** A poll without a deadline never oversleeps: register, mark, look again, sleep. */
module PollProps {
  import opened Prelude
  import opened PipeSpec
  import opened PipeSmp
  import opened PipeSmpProps

  predicate Polls(c: Pc) { c.Scan? || c.Register? || c.Rescan? || c.PollWait? || c.Clear? }

  /** The poll asks for something to wait for. */
  predicate Asks(f: Fd) { f.pollIn || f.pollOut }

  predicate Registered(s: State, t: Tid, f: Fd) {
    (f.pollIn ==> t in At(s, f.p).rwq) && (f.pollOut ==> t in At(s, f.p).wwq)
  }

  /** A write end asked only for input, with nobody left to read. */
  predicate Dead(s: State, f: Fd) { !f.readEnd && !f.pollOut && At(s, f.p).readers == 0 }

  /** While the poller is still running, a lost registration means it will see the
      descriptor ready when it looks again. */
  predicate Held(s: State, t: Tid, f: Fd) { Registered(s, t, f) || Ready(s, f) || Dead(s, f) }

  /** Once it has looked, whatever makes the descriptor ready wakes it. */
  ghost predicate Caught(s: State, t: Tid, f: Fd) {
    Pending(s, t) || (!Ready(s, f) && (Registered(s, t, f) || Dead(s, f)))
  }

  ghost predicate PollOk(s: State, t: Tid) {
    var c := PcOf(s, t);
    && (c.Register? && c.all ==> forall j :: 0 <= j < c.i && j < |c.fds| && Asks(c.fds[j]) ==> Held(s, t, c.fds[j]))
    && (c.Rescan? && St(s, t) == Asleep(false) ==>
          && (forall j :: c.i <= j < |c.fds| && Asks(c.fds[j]) ==> Held(s, t, c.fds[j]))
          && (!c.hit ==> forall j :: 0 <= j < c.i && j < |c.fds| && Asks(c.fds[j]) ==> Caught(s, t, c.fds[j])))
    && (c.PollWait? && St(s, t) == Asleep(false) ==>
          forall j :: 0 <= j < |c.fds| && Asks(c.fds[j]) ==> Caught(s, t, c.fds[j]))
  }

  function EndCount(s: State, f: Fd): nat { if f.readEnd then At(s, f.p).readers else At(s, f.p).writers }

  /** A poller keeps the ends it polls open. */
  ghost predicate EndsOk(s: State, t: Tid) {
    Polls(PcOf(s, t)) ==> forall f :: f in PcOf(s, t).fds ==> EndCount(s, f) > 0
  }

  ghost predicate Anonymous(s: State) { forall p :: At(s, p).readers <= 1 && At(s, p).writers <= 1 }

  ghost predicate PollInv(s: State) {
    && Inv(s) && Anonymous(s)
    && (forall t :: PollOk(s, t))
    && (forall t :: EndsOk(s, t))
  }

  // ---- what may take a hold away ------------------------------------------------

  /** A read of zero bytes from a full pipe: it empties the write queue and makes no room. */
  predicate Steals(s: State, step: Step, f: Fd)
    requires Enabled(s, step)
  {
    && step.Read? && PcOf(s, step.t).p == f.p && PcOf(s, step.t).want == 0
    && f.pollOut && !Ready(s, f)
  }

  /** A read of the last byte that input was polled for. */
  predicate Drains(s: State, step: Step, f: Fd)
    requires Enabled(s, step)
  {
    && step.Read? && PcOf(s, step.t).p == f.p && f.pollIn && !f.pollOut
    && 0 < |At(s, f.p).buf| <= PcOf(s, step.t).want && At(s, f.p).writers > 0
  }

  /** A write into the last room that output was polled for. */
  predicate Fills(s: State, step: Step, f: Fd)
    requires Enabled(s, step)
  {
    && step.Write? && PcOf(s, step.t).p == f.p && f.pollOut && !f.pollIn
    && |At(s, f.p).buf| < PIPE_BUF_SIZE <= |At(s, f.p).buf| + |PcOf(s, step.t).data|
    && At(s, f.p).readers > 0 && At(s, f.p).writers > 0
  }

  /** A registered poller loses its hold to a read of zero bytes from a full pipe; one that
      has been taken off the queue because the descriptor was ready, to whoever makes it
      unready again. */
  predicate LosesHold(s: State, step: Step, t: Tid, f: Fd)
    requires Enabled(s, step)
  {
    if Registered(s, t, f) then Steals(s, step, f)
    else !Dead(s, f) && (Drains(s, step, f) || Fills(s, step, f))
  }

  predicate ClosesEnd(step: Step, f: Fd) { step.Close? && step.p == f.p && step.readEnd == f.readEnd }

  /** Descriptor `j` is registered and the poller has not looked at it again. */
  predicate Unseen(s: State, t: Tid, j: nat) {
    var c := PcOf(s, t);
    || (c.Register? && c.all && j < c.i && j < |c.fds| && Asks(c.fds[j]))
    || (c.Rescan? && St(s, t) == Asleep(false) && c.i <= j < |c.fds| && Asks(c.fds[j]))
  }

  /** Nobody else closes a polled end (the poller's descriptor keeps it open), nor takes
      the hold on a descriptor between the poller's registration and its second look. */
  ghost predicate FriendlyTo(s: State, step: Step, t: Tid)
    requires Enabled(s, step)
  {
    t != step.t && Polls(PcOf(s, t)) ==>
      && (forall f :: f in PcOf(s, t).fds ==> !ClosesEnd(step, f))
      && (forall j: nat :: Unseen(s, t, j) ==> !LosesHold(s, step, t, PcOf(s, t).fds[j]))
  }

  ghost predicate Friendly(s: State, step: Step)
    requires Enabled(s, step)
  {
    forall t :: FriendlyTo(s, step, t)
  }

  // ---- steps of others ----------------------------------------------------------

  lemma ReadHeldIff(s: State, u: Tid, t: Tid, f: Fd)
    requires Enabled(s, Read(u)) && t != u && Registered(s, t, f) && PipeOk(At(s, f.p))
    ensures Held(Apply(s, Read(u)), t, f) <==> !Steals(s, Read(u), f)
  {
    var x := At(s, f.p);
    if PcOf(s, u).p == f.p && x.buf != [] && PcOf(s, u).want > 0 {
      assert |At(Apply(s, Read(u)), f.p).buf| < |x.buf|;
    }
  }

  lemma WriteHeld(s: State, u: Tid, t: Tid, f: Fd)
    requires Enabled(s, Write(u)) && t != u && Registered(s, t, f) && PipeOk(At(s, f.p))
    ensures Held(Apply(s, Write(u)), t, f)
  {
    var x, y := At(s, f.p), At(Apply(s, Write(u)), f.p);
    if PcOf(s, u).p == f.p && y.rwq != x.rwq { assert |y.buf| > |x.buf|; }
  }

  lemma CloseHeld(s: State, u: Tid, p: PipeId, readEnd: bool, t: Tid, f: Fd)
    requires Enabled(s, Close(u, p, readEnd)) && t != u && Registered(s, t, f)
    requires At(s, f.p).readers <= 1 && At(s, f.p).writers <= 1 && !ClosesEnd(Close(u, p, readEnd), f)
    ensures Held(Apply(s, Close(u, p, readEnd)), t, f)
  {
  }

  /** A step that takes a registered poller off a queue leaves the descriptor ready, but
      for a read of zero bytes. */
  lemma RegisteredHeldIff(s: State, step: Step, t: Tid, f: Fd)
    requires Enabled(s, step) && t != step.t && Takes(step) && Registered(s, t, f)
    requires Anonymous(s) && PipeOk(At(s, f.p)) && !ClosesEnd(step, f)
    ensures Held(Apply(s, step), t, f) <==> !Steals(s, step, f)
  {
    match step
    case Read(u) => ReadHeldIff(s, u, t, f);
    case Write(u) => WriteHeld(s, u, t, f);
    case Close(u, p, e) =>
      assert At(s, f.p).readers <= 1 && At(s, f.p).writers <= 1;
      CloseHeld(s, u, p, e, t, f);
  }

  lemma ReadyHeldIff(s: State, step: Step, t: Tid, f: Fd)
    requires Enabled(s, step) && t != step.t && Takes(step) && !Registered(s, t, f) && !Dead(s, f) && Ready(s, f)
    requires PipeOk(At(s, f.p)) && !ClosesEnd(step, f)
    ensures Held(Apply(s, step), t, f) <==> !Drains(s, step, f) && !Fills(s, step, f)
  {
  }

  /** The exact condition, step by step: a hold on a descriptor survives what another task
      does if and only if the step is not one of the three above. */
  lemma HeldIff(s: State, step: Step, t: Tid, f: Fd)
    requires Enabled(s, step) && t != step.t && Held(s, t, f)
    requires Anonymous(s) && PipeOk(At(s, f.p)) && !ClosesEnd(step, f)
    ensures Held(Apply(s, step), t, f) <==> !LosesHold(s, step, t, f)
  {
    if Takes(step) {
      if Registered(s, t, f) {
        RegisteredHeldIff(s, step, t, f);
      } else if Dead(s, f) {
        DeadStays(s, step, f);
      } else {
        ReadyHeldIff(s, step, t, f);
      }
    } else if EditsQueue(step) {
      EditHeld(s, step, t, f);
    } else {
      StillPipes(s, step);
    }
  }

  lemma EditHeld(s: State, step: Step, t: Tid, f: Fd)
    requires Enabled(s, step) && t != step.t && EditsQueue(step) && Held(s, t, f)
    ensures Held(Apply(s, step), t, f)
  {
  }

  lemma DeadStays(s: State, step: Step, f: Fd)
    requires Enabled(s, step) && Takes(step) && Dead(s, f)
    ensures Dead(Apply(s, step), f)
  {
  }

  lemma DeadStaysUnready(s: State, step: Step, f: Fd)
    requires Enabled(s, step) && Dead(s, f) && !Ready(s, f) && Asks(f) && EndCount(Apply(s, step), f) > 0
    ensures Dead(Apply(s, step), f) && !Ready(Apply(s, step), f)
  {
    if !Takes(step) && !EditsQueue(step) { StillPipes(s, step); }
  }

  lemma CaughtKeeps(s: State, step: Step, t: Tid, f: Fd)
    requires Enabled(s, step) && Rel(s, Apply(s, step), t) && Asks(f) && Caught(s, t, f)
    requires EndCount(Apply(s, step), f) > 0 && St(Apply(s, step), t) != Awake
    ensures Caught(Apply(s, step), t, f)
  {
    var r := Apply(s, step);
    if !Pending(s, t) && !Pending(r, t) {
      if Registered(s, t, f) {
        assert PipeRel(At(s, f.p), At(r, f.p), t, Pending(r, t));
      } else {
        DeadStaysUnready(s, step, f);
      }
    }
  }

  lemma EditCounts(s: State, step: Step, p: PipeId)
    requires Enabled(s, step) && EditsQueue(step)
    ensures At(Apply(s, step), p).readers == At(s, p).readers && At(Apply(s, step), p).writers == At(s, p).writers
  {
  }

  lemma TakeCounts(s: State, step: Step, p: PipeId)
    requires Enabled(s, step) && Takes(step) && (step.Close? ==> step.p != p)
    ensures At(Apply(s, step), p).readers == At(s, p).readers && At(Apply(s, step), p).writers == At(s, p).writers
  {
  }

  lemma CountsSame(s: State, step: Step, p: PipeId)
    requires Enabled(s, step) && (step.Close? ==> step.p != p)
    ensures At(Apply(s, step), p).readers == At(s, p).readers && At(Apply(s, step), p).writers == At(s, p).writers
  {
    if Takes(step) {
      TakeCounts(s, step, p);
    } else if EditsQueue(step) {
      EditCounts(s, step, p);
    } else {
      StillPipes(s, step);
    }
  }

  lemma OtherEnds(s: State, step: Step, t: Tid, f: Fd)
    requires Enabled(s, step) && FriendlyTo(s, step, t) && t != step.t && Polls(PcOf(s, t)) && f in PcOf(s, t).fds
    requires EndCount(s, f) > 0
    ensures EndCount(Apply(s, step), f) > 0
  {
    if !step.Close? || step.p != f.p { CountsSame(s, step, f.p); }
  }

  lemma OtherPoll(s: State, step: Step, t: Tid)
    requires Enabled(s, step) && FriendlyTo(s, step, t) && t != step.t && PollInv(s)
    ensures PollOk(Apply(s, step), t) && EndsOk(Apply(s, step), t)
  {
    var r := Apply(s, step);
    assert PollOk(s, t) && EndsOk(s, t);
    StepRel(s, step, t);
    var c := PcOf(s, t);
    if Polls(c) {
      forall f | f in c.fds ensures EndCount(r, f) > 0 { OtherEnds(s, step, t, f); }
      forall j: nat | Unseen(s, t, j) && Held(s, t, c.fds[j]) ensures Held(r, t, c.fds[j]) {
        assert c.fds[j] in c.fds;
        HeldIff(s, step, t, c.fds[j]);
      }
      if St(r, t) != Awake {
        forall f | f in c.fds && Asks(f) && Caught(s, t, f) ensures Caught(r, t, f) { CaughtKeeps(s, step, t, f); }
      }
    }
  }
}
