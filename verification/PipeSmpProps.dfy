/** No pipe operation sleeps while it could go on, and bytes come out as they went in. */
module PipeSmpProps {
  import opened Prelude
  import opened PipeSpec
  import opened PipeSmp

  /** Somebody has taken `t` off a queue and is about to wake it. */
  ghost predicate Pending(s: State, t: Tid) {
    exists u :: u in s.pc && WillWake(s.pc[u], t)
  }

  predicate WillWake(c: Pc, t: Tid) { c.Waking? && t in c.list }

  // ---- blocking reads and writes ------------------------------------------------

  /** A reader asleep is queued on an empty pipe that has writers, or is about to be
      woken; dually for writers. */
  ghost predicate BlockOk(s: State, t: Tid) {
    var c := PcOf(s, t);
    && (c.Waking? ==> c.next.Out? || c.next.Writing?)
    && (c.ReadWait? && St(s, t) != Awake ==>
          Pending(s, t) || (t in At(s, c.p).rwq && At(s, c.p).buf == [] && At(s, c.p).writers > 0))
    && (c.WriteWait? && St(s, t) != Awake ==>
          Pending(s, t) || (t in At(s, c.p).wwq && |At(s, c.p).buf| >= PIPE_BUF_SIZE && At(s, c.p).readers > 0))
  }

  /** Bytes read and bytes buffered are the bytes accepted, in order. */
  ghost predicate PipeOk(x: Pipe) {
    x.accepted == x.delivered + x.buf && |x.buf| <= PIPE_BUF_SIZE
  }

  ghost predicate Inv(s: State) {
    && (forall t :: BlockOk(s, t))
    && (forall p :: PipeOk(At(s, p)))
  }

  predicate Blocks(s: State, step: Step)
    requires Enabled(s, step)
  {
    || (step.Read? && At(s, PcOf(s, step.t).p).buf == [] && At(s, PcOf(s, step.t).p).writers > 0)
    || (step.Write? && PcOf(s, step.t).data != [] && At(s, PcOf(s, step.t).p).readers > 0
        && |At(s, PcOf(s, step.t).p).buf| >= PIPE_BUF_SIZE)
  }

  /** The four wait slots suffice: nobody goes to sleep on a full queue. */
  predicate Roomy(s: State, step: Step)
    requires Enabled(s, step)
  {
    Blocks(s, step) ==>
      HasRoom(if step.Read? then At(s, PcOf(s, step.t).p).rwq else At(s, PcOf(s, step.t).p).wwq, step.t)
  }

  // ---- what a step does to somebody else ----------------------------------------

  /** Seen from a task in the read queue, nothing happened. */
  predicate ReadQuiet(a: Pipe, b: Pipe) {
    (a.buf == [] ==> b.buf == []) && b.writers == a.writers && b.readers == a.readers
  }

  predicate WriteQuiet(a: Pipe, b: Pipe) {
    (|a.buf| >= PIPE_BUF_SIZE ==> |b.buf| >= PIPE_BUF_SIZE) && b.writers == a.writers && b.readers == a.readers
  }

  /** Whatever matters to a queued task takes it off the queue to wake it. */
  ghost predicate PipeRel(a: Pipe, b: Pipe, t: Tid, woken: bool) {
    && (t in a.rwq ==> woken || (t in b.rwq && ReadQuiet(a, b)))
    && (t in a.wwq ==> woken || (t in b.wwq && WriteQuiet(a, b)))
  }

  ghost predicate Rel(s: State, r: State, t: Tid) {
    && PcOf(r, t) == PcOf(s, t)
    && (St(r, t) == St(s, t) || St(r, t) == Awake)
    && (Pending(s, t) ==> Pending(r, t) || St(r, t) == Awake)
    && (forall p :: PipeRel(At(s, p), At(r, p), t, Pending(r, t)))
  }

  lemma SamePc(s: State, r: State, t: Tid, u: Tid)
    requires forall x :: x != u ==> PcOf(r, x) == PcOf(s, x)
    requires WillWake(PcOf(s, u), t) ==> WillWake(PcOf(r, u), t)
    requires Pending(s, t)
    ensures Pending(r, t)
  {
    var w :| w in s.pc && WillWake(s.pc[w], t);
    assert PcOf(s, w) == s.pc[w];
    assert WillWake(PcOf(r, w), t);
  }

  lemma NowPending(r: State, u: Tid, t: Tid)
    requires WillWake(PcOf(r, u), t)
    ensures Pending(r, t)
  {
    assert u in r.pc;
  }

  lemma ReadRel(s: State, u: Tid, t: Tid)
    requires Enabled(s, Read(u)) && t != u
    ensures Rel(s, Apply(s, Read(u)), t)
  {
    var r := Apply(s, Read(u));
    if Pending(s, t) { SamePc(s, r, t, u); }
    var p := PcOf(s, u).p;
    if At(s, p).buf != [] && t in At(s, p).wwq { NowPending(r, u, t); }
  }

  lemma WriteRel(s: State, u: Tid, t: Tid)
    requires Enabled(s, Write(u)) && t != u
    ensures Rel(s, Apply(s, Write(u)), t)
  {
    var r := Apply(s, Write(u));
    if Pending(s, t) { SamePc(s, r, t, u); }
    var p := PcOf(s, u).p;
    var x := At(s, p);
    if PcOf(s, u).data != [] && x.readers != 0 && |x.buf| < PIPE_BUF_SIZE && t in x.rwq { NowPending(r, u, t); }
  }

  lemma CloseRel(s: State, u: Tid, p: PipeId, readEnd: bool, t: Tid)
    requires Enabled(s, Close(u, p, readEnd)) && t != u
    ensures Rel(s, Apply(s, Close(u, p, readEnd)), t)
  {
    var r := Apply(s, Close(u, p, readEnd));
    if Pending(s, t) { SamePc(s, r, t, u); }
    if t in At(s, p).rwq + At(s, p).wwq { NowPending(r, u, t); }
  }

  lemma WakeRel(s: State, u: Tid, x: Tid, t: Tid)
    requires Enabled(s, WakeOne(u, x)) && t != u
    ensures Rel(s, Apply(s, WakeOne(u, x)), t)
  {
    var r := Apply(s, WakeOne(u, x));
    if Pending(s, t) && t != x {
      var w :| w in s.pc && WillWake(s.pc[w], t);
      assert WillWake(PcOf(r, w), t);
    }
  }

  /** Steps of a task that edit its own place in a queue. */
  predicate EditsQueue(step: Step) { step.Retry? || step.RegisterOne? || step.ClearOne? }

  predicate Takes(step: Step) { step.Read? || step.Write? || step.Close? }

  lemma EditRel(s: State, step: Step, t: Tid)
    requires Enabled(s, step) && t != step.t && EditsQueue(step)
    ensures Rel(s, Apply(s, step), t)
  {
    var r := Apply(s, step);
    if Pending(s, t) { SamePc(s, r, t, step.t); }
  }

  lemma StillPipes(s: State, step: Step)
    requires Enabled(s, step) && !EditsQueue(step) && !Takes(step)
    ensures Apply(s, step).pipes == s.pipes
    ensures forall x :: x != step.t ==> PcOf(Apply(s, step), x) == PcOf(s, x)
    ensures !step.WakeOne? ==> forall x :: x != step.t ==> St(Apply(s, step), x) == St(s, x)
    ensures !step.WakeOne? ==> forall x :: WillWake(PcOf(s, step.t), x) ==> WillWake(PcOf(Apply(s, step), step.t), x)
  {
  }

  lemma StillRel(s: State, step: Step, t: Tid)
    requires Enabled(s, step) && t != step.t
    requires !Takes(step) && !EditsQueue(step) && !step.WakeOne?
    ensures Rel(s, Apply(s, step), t)
  {
    StillPipes(s, step);
    if Pending(s, t) { SamePc(s, Apply(s, step), t, step.t); }
  }

  lemma StepRel(s: State, step: Step, t: Tid)
    requires Enabled(s, step) && t != step.t
    ensures Rel(s, Apply(s, step), t)
  {
    match step
    case Read(u) => ReadRel(s, u, t);
    case Write(u) => WriteRel(s, u, t);
    case Close(u, p, e) => CloseRel(s, u, p, e, t);
    case WakeOne(u, x) => WakeRel(s, u, x, t);
    case _ => if EditsQueue(step) { EditRel(s, step, t); } else { StillRel(s, step, t); }
  }

  // ---- blocking I/O never oversleeps --------------------------------------------

  lemma OtherBlock(s: State, r: State, t: Tid)
    requires BlockOk(s, t) && Rel(s, r, t)
    ensures BlockOk(r, t)
  {
    var c := PcOf(s, t);
    if (c.ReadWait? || c.WriteWait?) && St(r, t) != Awake {
      assert PipeRel(At(s, c.p), At(r, c.p), t, Pending(r, t));
    }
  }

  lemma OwnBlock(s: State, step: Step)
    requires Enabled(s, step) && Roomy(s, step) && BlockOk(s, step.t)
    ensures BlockOk(Apply(s, step), step.t)
  {
    var c := PcOf(Apply(s, step), step.t);
    if step.Read? || step.Write? {
      OwnTry(s, step);
    } else if !step.Signal? {
      assert !c.ReadWait? && !c.WriteWait?;
    }
  }

  lemma OwnTry(s: State, step: Step)
    requires Enabled(s, step) && Roomy(s, step) && (step.Read? || step.Write?)
    ensures BlockOk(Apply(s, step), step.t)
  {
  }

  lemma ReadPipe(s: State, t: Tid, p: PipeId)
    requires Enabled(s, Read(t)) && PipeOk(At(s, p))
    ensures PipeOk(At(Apply(s, Read(t)), p))
  {
    var x := At(s, p);
    var c := PcOf(s, t);
    if c.p == p && x.buf != [] {
      var n := Min(c.want, |x.buf|);
      assert x.buf == x.buf[..n] + x.buf[n..];
    }
  }

  lemma WritePipe(s: State, t: Tid, p: PipeId)
    requires Enabled(s, Write(t)) && PipeOk(At(s, p))
    ensures PipeOk(At(Apply(s, Write(t)), p))
  {
  }

  lemma StepPipe(s: State, step: Step, p: PipeId)
    requires Enabled(s, step) && PipeOk(At(s, p))
    ensures PipeOk(At(Apply(s, step), p))
  {
    if step.Read? {
      ReadPipe(s, step.t, p);
    } else if step.Write? {
      WritePipe(s, step.t, p);
    } else if !EditsQueue(step) && !step.Close? {
      StillPipes(s, step);
    }
  }

  lemma StepKeeps(s: State, step: Step)
    requires Inv(s) && Enabled(s, step) && Roomy(s, step)
    ensures Inv(Apply(s, step))
  {
    var r := Apply(s, step);
    forall t ensures BlockOk(r, t) {
      assert BlockOk(s, t);
      if t == step.t {
        OwnBlock(s, step);
      } else {
        StepRel(s, step, t);
        OtherBlock(s, r, t);
      }
    }
    forall p ensures PipeOk(At(r, p)) { StepPipe(s, step, p); }
  }
}
