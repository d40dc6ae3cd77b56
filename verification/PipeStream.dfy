/** What a writer hands to a pipe is what the readers get, over every interleaving. */
module PipeStream {
  import opened Prelude
  import opened PipeSpec
  import opened PipeSmp
  import opened PipeSmpProps
  import opened PollRun

  /** What is still to be written by the call a task is in. */
  function Left(c: Pc): seq<Byte> {
    match c
    case Writing(_, data) => data
    case WriteWait(_, data) => data
    case Waking(_, next) => Left(next)
    case _ => []
  }

  ghost function Asked(step: Step, t: Tid): seq<Byte> {
    if step.CallWrite? && step.t == t then step.data else []
  }

  /** Everything task `t` asks to have written, call after call. */
  ghost function Offered(steps: seq<Step>, t: Tid): seq<Byte>
    decreases |steps|
  {
    if steps == [] then [] else Asked(steps[0], t) + Offered(steps[1..], t)
  }

  /** Task `t` finds a reader whenever it goes to write something. */
  ghost predicate HeardAt(s: State, step: Step, t: Tid)
    requires Enabled(s, step)
  {
    step.Write? && step.t == t ==> At(s, PcOf(s, t).p).readers > 0 || PcOf(s, t).data == []
  }

  ghost predicate Heard(s: State, steps: seq<Step>, t: Tid)
    requires AllEnabled(s, steps)
    decreases |steps|
  {
    steps == [] || (HeardAt(s, steps[0], t) && Heard(Apply(s, steps[0]), steps[1..], t))
  }

  // ---- one writer, one pipe -----------------------------------------------------

  predicate CallsAlone(step: Step, t: Tid, p: PipeId) { step.CallWrite? ==> (step.t == t <==> step.p == p) }

  /** The pipe a task is writing to. */
  ghost predicate WritesOnly(s: State, t: Tid, p: PipeId) {
    && (forall q :: InWrite(PcOf(s, t), q) ==> q == p)
    && (forall u :: InWrite(PcOf(s, u), p) ==> u == t)
  }

  ghost predicate Chained(s: State) { forall u :: NextOk(PcOf(s, u)) }

  predicate NextOk(c: Pc) { c.Waking? ==> c.next.Out? || c.next.Writing? }

  lemma OtherPc(s: State, step: Step, u: Tid)
    requires Enabled(s, step) && u != step.t
    ensures PcOf(Apply(s, step), u) == PcOf(s, u)
  {
    StepRel(s, step, u);
  }

  lemma OwnPc(s: State, step: Step, q: PipeId)
    requires Enabled(s, step) && NextOk(PcOf(s, step.t))
    ensures NextOk(PcOf(Apply(s, step), step.t))
    ensures InWrite(PcOf(Apply(s, step), step.t), q) ==> InWrite(PcOf(s, step.t), q) || (step.CallWrite? && step.p == q)
  {
  }

  lemma StepAlone(s: State, step: Step, t: Tid, p: PipeId)
    requires Enabled(s, step) && CallsAlone(step, t, p) && Chained(s) && WritesOnly(s, t, p)
    ensures Chained(Apply(s, step)) && WritesOnly(Apply(s, step), t, p)
  {
    var r := Apply(s, step);
    forall u ensures NextOk(PcOf(r, u)) {
      assert NextOk(PcOf(s, u));
      if u == step.t { OwnPc(s, step, p); } else { OtherPc(s, step, u); }
    }
    forall u, q | InWrite(PcOf(r, u), q)
      ensures InWrite(PcOf(s, u), q) || (step.CallWrite? && step.t == u && step.p == q)
    {
      assert NextOk(PcOf(s, u));
      if u == step.t { OwnPc(s, step, q); } else { OtherPc(s, step, u); }
    }
  }

  /** A write step moves bytes from what is left to the end of the pipe, if and only if
      it finds a reader: without one the call gives up what it has left. */
  lemma WriteMovesIffHeard(s: State, t: Tid)
    requires Enabled(s, Write(t))
    ensures var c := PcOf(s, t); var r := Apply(s, Write(t));
            At(s, c.p).accepted + Left(c) == At(r, c.p).accepted + Left(PcOf(r, t)) <==> HeardAt(s, Write(t), t)
  {
    var c := PcOf(s, t);
    var x := At(s, c.p);
    if !HeardAt(s, Write(t), t) {
      assert |x.accepted + Left(c)| > |x.accepted + []|;
    } else if |x.buf| < PIPE_BUF_SIZE {
      var n := Fits(x.buf, c.data);
      assert c.data == c.data[..n] + c.data[n..];
      assert x.accepted + c.data == (x.accepted + c.data[..n]) + c.data[n..];
    }
  }

  lemma OtherAccepts(s: State, step: Step, p: PipeId)
    requires Enabled(s, step) && (step.Write? ==> PcOf(s, step.t).p != p)
    ensures At(Apply(s, step), p).accepted == At(s, p).accepted
  {
    if !EditsQueue(step) && !Takes(step) { StillPipes(s, step); }
  }

  lemma OwnLeft(s: State, step: Step)
    requires Enabled(s, step) && NextOk(PcOf(s, step.t)) && !step.Write?
    ensures Left(PcOf(s, step.t)) + Asked(step, step.t) == Left(PcOf(Apply(s, step), step.t))
  {
    assert step.CallWrite? ==> Left(PcOf(s, step.t)) == [];
  }

  lemma StepCarries(s: State, step: Step, t: Tid, p: PipeId)
    requires Enabled(s, step) && HeardAt(s, step, t) && Chained(s) && WritesOnly(s, t, p)
    ensures var r := Apply(s, step);
            At(s, p).accepted + (Left(PcOf(s, t)) + Asked(step, t)) == At(r, p).accepted + Left(PcOf(r, t))
  {
    assert NextOk(PcOf(s, t));
    if step.Write? && step.t == t {
      assert InWrite(PcOf(s, t), PcOf(s, t).p);
      WriteMovesIffHeard(s, t);
      assert Left(PcOf(s, t)) + Asked(step, t) == Left(PcOf(s, t));
    } else {
      assert step.Write? ==> InWrite(PcOf(s, step.t), PcOf(s, step.t).p);
      OtherAccepts(s, step, p);
      if step.t == t { OwnLeft(s, step); } else { OtherPc(s, step, t); }
    }
  }

  lemma Regroup(a: seq<Byte>, b: seq<Byte>, c: seq<Byte>, d: seq<Byte>)
    ensures a + b + (c + d) == (a + (b + c)) + d
  {
  }

  lemma {:induction false} RunCarries(s: State, steps: seq<Step>, t: Tid, p: PipeId)
    requires AllEnabled(s, steps) && Heard(s, steps, t) && Chained(s) && WritesOnly(s, t, p)
    requires forall i :: 0 <= i < |steps| ==> CallsAlone(steps[i], t, p)
    ensures var r := Run(s, steps);
            At(s, p).accepted + Left(PcOf(s, t)) + Offered(steps, t) == At(r, p).accepted + Left(PcOf(r, t))
    decreases |steps|
  {
    if steps != [] {
      var u := Apply(s, steps[0]);
      StepAlone(s, steps[0], t, p);
      StepCarries(s, steps[0], t, p);
      RunCarries(u, steps[1..], t, p);
      Regroup(At(s, p).accepted, Left(PcOf(s, t)), Asked(steps[0], t), Offered(steps[1..], t));
    }
  }

  lemma {:induction false} RunPipes(s: State, steps: seq<Step>, p: PipeId)
    requires AllEnabled(s, steps) && PipeOk(At(s, p))
    ensures PipeOk(At(Run(s, steps), p))
    decreases |steps|
  {
    if steps != [] {
      StepPipe(s, steps[0], p);
      RunPipes(Apply(s, steps[0]), steps[1..], p);
    }
  }

  /** With one writer, the bytes it offered, over all its calls and whatever readers,
      pollers, closers and wake-ups do in between, are the bytes read, then the bytes
      buffered, then what its current call has left. */
  lemma PipeCarriesEverything(ids: set<PipeId>, steps: seq<Step>, t: Tid, p: PipeId)
    requires AllEnabled(Start(ids), steps) && Heard(Start(ids), steps, t)
    requires forall i :: 0 <= i < |steps| ==> CallsAlone(steps[i], t, p)
    ensures var s := Run(Start(ids), steps);
            && Offered(steps, t) == At(s, p).delivered + At(s, p).buf + Left(PcOf(s, t))
            && |At(s, p).buf| <= PIPE_BUF_SIZE
  {
    var s := Start(ids);
    assert forall u :: PcOf(s, u) == Out;
    RunCarries(s, steps, t, p);
    RunPipes(s, steps, p);
    assert At(s, p).accepted + Left(PcOf(s, t)) + Offered(steps, t) == Offered(steps, t);
  }
}
