/** What a poll, a read and a write come to: when a poll returns, when it sleeps and what
    it does when woken; and that a blocked reader or writer, once woken, gets on. */
module PollProgress {
  import opened Prelude
  import opened PipeSpec
  import opened PipeSmp
  import opened PipeSmpProps
  import opened PollProps
  import opened PollRun
  import opened PollFails

  /** Only task `t` has moved. */
  ghost predicate Alone(s: State, r: State, t: Tid) { forall x {:trigger Still(s, r, x)} :: x != t ==> Still(s, r, x) }

  predicate Still(s: State, r: State, x: Tid) { PcOf(r, x) == PcOf(s, x) && St(r, x) == St(s, x) }

  lemma AloneTrans(s: State, m: State, r: State, t: Tid)
    requires Alone(s, m, t) && Alone(m, r, t)
    ensures Alone(s, r, t)
  {
    forall x | x != t ensures Still(s, r, x) { assert Still(s, m, x) && Still(m, r, x); }
  }

  lemma OwnStep(s: State, step: Step)
    requires Enabled(s, step) && !step.WakeOne?
    ensures Alone(s, Apply(s, step), step.t)
  {
  }

  /** One more step of task `t`. */
  lemma Next(s: State, a: seq<Step>, m: State, step: Step, t: Tid) returns (b: seq<Step>, r: State)
    requires Leads(s, a, m) && Alone(s, m, t) && Enabled(m, step) && Roomy(m, step) && step.t == t && !step.WakeOne?
    ensures r == Apply(m, step) && Leads(s, b, r) && Alone(s, r, t)
  {
    b, r := Then(s, a, m, step);
    OwnStep(m, step);
    AloneTrans(s, m, r, t);
  }

  lemma More(s: State, a: seq<Step>, m: State, b: seq<Step>, r: State, t: Tid) returns (c: seq<Step>)
    requires Leads(s, a, m) && Alone(s, m, t) && Leads(m, b, r) && Alone(m, r, t)
    ensures Leads(s, c, r) && Alone(s, r, t)
  {
    LeadsAfter(s, a, m, b, r);
    AloneTrans(s, m, r, t);
    c := a + b;
  }

  ghost predicate AnyReady(s: State, fds: seq<Fd>, i: nat) { exists j :: i <= j < |fds| && Ready(s, fds[j]) }

  lemma AnyReadyNext(s: State, r: State, fds: seq<Fd>, i: nat)
    requires i < |fds| && forall f :: f in fds ==> Ready(r, f) == Ready(s, f)
    ensures AnyReady(s, fds, i) <==> Ready(s, fds[i]) || AnyReady(r, fds, i + 1)
  {
    if AnyReady(s, fds, i) {
      var j :| i <= j < |fds| && Ready(s, fds[j]);
      assert fds[j] in fds;
      assert j > i ==> Ready(r, fds[j]);
    }
    if AnyReady(r, fds, i + 1) {
      var j :| i + 1 <= j < |fds| && Ready(r, fds[j]);
      assert fds[j] in fds && Ready(s, fds[j]);
    }
  }

  lemma SamePipesReady(s: State, r: State, fds: seq<Fd>)
    requires r.pipes == s.pipes
    ensures AnyReady(r, fds, 0) == AnyReady(s, fds, 0)
  {
    forall f ensures Ready(r, f) == Ready(s, f) {}
  }

  // ---- one step -----------------------------------------------------------------

  /** A scan remembers whether a descriptor was ready when it was looked at, and ends the
      poll if and only if one was or the caller gives up. */
  lemma ScanSteps(s: State, t: Tid, giveUp: bool)
    ensures Enabled(s, ScanOne(t)) ==>
              var c := PcOf(s, t); var d := PcOf(Apply(s, ScanOne(t)), t);
              d.Scan? && d.fds == c.fds && d.i == c.i + 1 && (d.hit <==> c.hit || Ready(s, c.fds[c.i]))
    ensures Enabled(s, ScanDone(t, giveUp)) ==>
              var d := PcOf(Apply(s, ScanDone(t, giveUp)), t);
              (d == Out <==> giveUp || PcOf(s, t).hit) && (d != Out ==> d.Register? && d.i == 0 && d.all)
  {
  }

  /** A poll for input says ready if and only if a read would not block, and a poll for
      output on an open end if and only if a write would not. */
  lemma PollAgreesWithCalls(s: State, f: Fd, t: Tid)
    ensures f.pollIn && !f.pollOut && PcOf(s, t).Reading? && PcOf(s, t).p == f.p ==>
              (Ready(s, f) <==> !PcOf(Apply(s, Read(t)), t).ReadWait?)
    ensures f.pollOut && !f.pollIn && At(s, f.p).writers > 0
            && PcOf(s, t).Writing? && PcOf(s, t).p == f.p && PcOf(s, t).data != [] ==>
              (Ready(s, f) <==> !PcOf(Apply(s, Write(t)), t).WriteWait?)
    ensures f.pollIn && f.pollOut ==>
              (Ready(s, f) <==> Ready(s, f.(pollIn := false)) || Ready(s, f.(pollOut := false)))
    ensures !f.pollIn && !f.pollOut ==> (Ready(s, f) <==> At(s, f.p).writers == 0)
  {
  }

  /** A signal wakes its task and does nothing else. */
  lemma SignalWakes(s: State, t: Tid)
    ensures var r := Apply(s, Signal(t));
            r.pipes == s.pipes && r.pc == s.pc && St(r, t) == Awake && forall x :: x != t ==> St(r, x) == St(s, x)
  {
  }

  // ---- a poll on its own --------------------------------------------------------

  lemma {:induction false} Scanned(s: State, t: Tid, fds: seq<Fd>, i: nat, limit: bool, hit: bool)
    returns (steps: seq<Step>, r: State)
    requires PcOf(s, t) == Scan(fds, i, limit, hit) && i <= |fds|
    ensures Leads(s, steps, r) && PcOf(r, t) == Scan(fds, |fds|, limit, hit || AnyReady(s, fds, i))
    ensures r.pipes == s.pipes && r.status == s.status && Alone(s, r, t)
    decreases |fds| - i
  {
    Begin(s);
    if i == |fds| {
      steps, r := [], s;
    } else {
      var a, s1 := Next(s, [], s, ScanOne(t), t);
      AnyReadyNext(s, s1, fds, i);
      var b;
      b, r := Scanned(s1, t, fds, i + 1, limit, hit || Ready(s, fds[i]));
      steps := More(s, a, s1, b, r, t);
    }
  }

  /** A poll returns at its first look if and only if something is ready or it gives up. */
  lemma PollLooks(s: State, t: Tid, fds: seq<Fd>, limit: bool, giveUp: bool) returns (steps: seq<Step>, r: State)
    requires Enabled(s, CallPoll(t, fds, limit))
    ensures Leads(s, steps, r) && r.pipes == s.pipes && r.status == s.status && Alone(s, r, t)
    ensures PcOf(r, t) == if giveUp || AnyReady(s, fds, 0) then Out else Register(fds, 0, limit, true)
  {
    Begin(s);
    var a, s1 := Next(s, [], s, CallPoll(t, fds, limit), t);
    var b, s2 := Scanned(s1, t, fds, 0, limit, false);
    SamePipesReady(s, s1, fds);
    b := More(s, a, s1, b, s2, t);
    steps, r := Next(s, b, s2, ScanDone(t, giveUp), t);
  }

  /** The queues of `f` have a slot for `t`. */
  predicate RoomFor(s: State, t: Tid, f: Fd) { HasRoom(At(s, f.p).rwq, t) && HasRoom(At(s, f.p).wwq, t) }

  /** Only the queues have changed, and only by `t`. */
  ghost predicate OnlyQueues(s: State, r: State, t: Tid) {
    forall p {:trigger QueuesAt(s, r, t, p)} :: QueuesAt(s, r, t, p)
  }

  predicate QueuesAt(s: State, r: State, t: Tid, p: PipeId) {
    && At(r, p) == At(s, p).(rwq := At(r, p).rwq, wwq := At(r, p).wwq)
    && At(r, p).rwq - {t} == At(s, p).rwq - {t} && At(r, p).wwq - {t} == At(s, p).wwq - {t}
  }

  lemma QueuesTrans(s: State, m: State, r: State, t: Tid)
    requires OnlyQueues(s, m, t) && OnlyQueues(m, r, t)
    ensures OnlyQueues(s, r, t)
  {
    forall p ensures QueuesAt(s, r, t, p) { assert QueuesAt(s, m, t, p) && QueuesAt(m, r, t, p); }
  }

  lemma QueuesReady(s: State, r: State, t: Tid, fds: seq<Fd>)
    requires OnlyQueues(s, r, t)
    ensures forall f :: Ready(r, f) == Ready(s, f)
    ensures AnyReady(r, fds, 0) == AnyReady(s, fds, 0)
  {
    forall f ensures Ready(r, f) == Ready(s, f) { assert QueuesAt(s, r, t, f.p); }
  }

  lemma RegisterQueues(s: State, t: Tid, f: Fd)
    requires RoomFor(s, t, f)
    ensures var (r, ok) := DoRegister(s, t, f); ok && Registered(r, t, f) && OnlyQueues(s, r, t)
  {
    var (r, ok) := DoRegister(s, t, f);
    forall p ensures QueuesAt(s, r, t, p) {}
  }

  lemma RegisterOthers(s: State, t: Tid, f: Fd, g: Fd)
    ensures var r := DoRegister(s, t, f).0;
            (RoomFor(s, t, g) ==> RoomFor(r, t, g)) && (Registered(s, t, g) ==> Registered(r, t, g))
  {
  }

  lemma RegisterOneFd(s: State, t: Tid, fds: seq<Fd>, i: nat, limit: bool)
    requires PcOf(s, t) == Register(fds, i, limit, true) && i < |fds| && RoomFor(s, t, fds[i])
    ensures Enabled(s, RegisterOne(t))
    ensures var r := Apply(s, RegisterOne(t));
            && PcOf(r, t) == Register(fds, i + 1, limit, true) && Registered(r, t, fds[i])
            && r.status == s.status && OnlyQueues(s, r, t)
            && (forall g :: RoomFor(s, t, g) ==> RoomFor(r, t, g))
            && (forall g :: Registered(s, t, g) ==> Registered(r, t, g))
  {
    var r, u := Apply(s, RegisterOne(t)), DoRegister(s, t, fds[i]).0;
    RegisterQueues(s, t, fds[i]);
    assert r.pipes == u.pipes;
    forall p ensures QueuesAt(s, r, t, p) { assert QueuesAt(s, u, t, p) && At(r, p) == At(u, p); }
    forall g ensures (RoomFor(s, t, g) ==> RoomFor(r, t, g)) && (Registered(s, t, g) ==> Registered(r, t, g)) {
      RegisterOthers(s, t, fds[i], g);
      assert At(r, g.p) == At(u, g.p);
    }
    assert At(r, fds[i].p) == At(u, fds[i].p);
  }

  lemma {:induction false} RegistersAll(s: State, t: Tid, fds: seq<Fd>, i: nat, limit: bool)
    returns (steps: seq<Step>, r: State)
    requires PcOf(s, t) == Register(fds, i, limit, true) && i <= |fds| && forall f :: f in fds ==> RoomFor(s, t, f)
    ensures Leads(s, steps, r) && PcOf(r, t) == Register(fds, |fds|, limit, true)
    ensures r.status == s.status && Alone(s, r, t) && OnlyQueues(s, r, t)
    ensures forall f :: Registered(s, t, f) ==> Registered(r, t, f)
    ensures forall j :: i <= j < |fds| ==> Registered(r, t, fds[j])
    decreases |fds| - i
  {
    Begin(s);
    if i == |fds| {
      steps, r := [], s;
    } else {
      assert fds[i] in fds;
      RegisterOneFd(s, t, fds, i, limit);
      var a, s1 := Next(s, [], s, RegisterOne(t), t);
      var b;
      b, r := RegistersAll(s1, t, fds, i + 1, limit);
      QueuesTrans(s, s1, r, t);
      steps := More(s, a, s1, b, r, t);
    }
  }

  lemma {:induction false} Rescanned(s: State, t: Tid, fds: seq<Fd>, i: nat, limit: bool, hit: bool)
    returns (steps: seq<Step>, r: State)
    requires PcOf(s, t) == Rescan(fds, i, limit, hit) && i <= |fds|
    ensures Leads(s, steps, r) && PcOf(r, t) == Rescan(fds, |fds|, limit, hit || AnyReady(s, fds, i))
    ensures r.pipes == s.pipes && r.status == s.status && Alone(s, r, t)
    decreases |fds| - i
  {
    Begin(s);
    if i == |fds| {
      steps, r := [], s;
    } else {
      var a, s1 := Next(s, [], s, RescanOne(t), t);
      AnyReadyNext(s, s1, fds, i);
      var b;
      b, r := Rescanned(s1, t, fds, i + 1, limit, hit || Ready(s, fds[i]));
      steps := More(s, a, s1, b, r, t);
    }
  }

  /** After registering, the poller marks itself asleep and looks once more. It stays asleep
      if and only if nothing is ready and no signal came. */
  lemma LooksThenSleeps(s: State, t: Tid, fds: seq<Fd>, limit: bool, interrupted: bool)
    returns (steps: seq<Step>, r: State)
    requires PcOf(s, t) == Register(fds, |fds|, limit, true)
    ensures Leads(s, steps, r) && r.pipes == s.pipes && Alone(s, r, t) && PcOf(r, t) == PollWait(fds, limit)
    ensures St(r, t) == if interrupted || AnyReady(s, fds, 0) then Awake else Asleep(limit)
  {
    Begin(s);
    var a, s1 := Next(s, [], s, MarkAsleep(t), t);
    var b, s2 := Rescanned(s1, t, fds, 0, limit, false);
    SamePipesReady(s, s1, fds);
    b := More(s, a, s1, b, s2, t);
    steps, r := Next(s, b, s2, Settle(t, interrupted), t);
  }

  /** A poll that nobody disturbs returns at once if and only if a descriptor is ready, and
      changes nothing; otherwise it sleeps, registered with every descriptor it asks about,
      until woken or until its deadline, if it has one. */
  lemma PollAlone(s: State, t: Tid, fds: seq<Fd>, limit: bool) returns (steps: seq<Step>, r: State)
    requires Enabled(s, CallPoll(t, fds, limit)) && forall f :: f in fds ==> RoomFor(s, t, f)
    ensures Leads(s, steps, r) && Alone(s, r, t)
    ensures AnyReady(s, fds, 0) ==> PcOf(r, t) == Out && r.pipes == s.pipes && r.status == s.status
    ensures !AnyReady(s, fds, 0) ==>
              && PcOf(r, t) == PollWait(fds, limit) && St(r, t) == Asleep(limit) && OnlyQueues(s, r, t)
              && forall f :: f in fds ==> Registered(r, t, f)
  {
    var a, s1 := PollLooks(s, t, fds, limit, false);
    if AnyReady(s, fds, 0) {
      steps, r := a, s1;
    } else {
      var b, s2 := RegistersAll(s1, t, fds, 0, limit);
      QueuesReady(s1, s2, t, fds);
      SamePipesReady(s, s1, fds);
      var c;
      c, r := LooksThenSleeps(s2, t, fds, limit, false);
      b := More(s, a, s1, b, s2, t);
      steps := More(s, b, s2, c, r, t);
      forall p ensures QueuesAt(s, r, t, p) { assert QueuesAt(s1, s2, t, p); }
      forall f | f in fds ensures Registered(r, t, f) {
        var j :| 0 <= j < |fds| && fds[j] == f;
        assert Registered(s2, t, fds[j]);
      }
    }
  }

  // ---- a poll that is woken -----------------------------------------------------

  predicate Fewer(s: State, r: State, p: PipeId) { At(r, p).rwq <= At(s, p).rwq && At(r, p).wwq <= At(s, p).wwq }

  lemma {:induction false} ClearsAll(s: State, t: Tid, fds: seq<Fd>, i: nat, limit: bool)
    returns (steps: seq<Step>, r: State)
    requires PcOf(s, t) == Clear(fds, i, limit) && i <= |fds|
    ensures Leads(s, steps, r) && PcOf(r, t) == Clear(fds, |fds|, limit)
    ensures r.status == s.status && Alone(s, r, t) && OnlyQueues(s, r, t)
    ensures forall p {:trigger Fewer(s, r, p)} :: Fewer(s, r, p)
    ensures forall j :: i <= j < |fds| ==> t !in At(r, fds[j].p).rwq && t !in At(r, fds[j].p).wwq
    decreases |fds| - i
  {
    Begin(s);
    if i == |fds| {
      steps, r := [], s;
    } else {
      var a, s1 := Next(s, [], s, ClearOne(t), t);
      ClearedOne(s, t);
      var b;
      b, r := ClearsAll(s1, t, fds, i + 1, limit);
      QueuesTrans(s, s1, r, t);
      steps := More(s, a, s1, b, r, t);
      assert Fewer(s, s1, fds[i].p) && Fewer(s1, r, fds[i].p);
      forall p ensures Fewer(s, r, p) { assert Fewer(s, s1, p) && Fewer(s1, r, p); }
    }
  }

  lemma ClearedOne(s: State, t: Tid)
    requires Enabled(s, ClearOne(t))
    ensures var r, f := Apply(s, ClearOne(t)), PcOf(s, t).fds[PcOf(s, t).i];
            && OnlyQueues(s, r, t) && t !in At(r, f.p).rwq && t !in At(r, f.p).wwq
            && forall p {:trigger Fewer(s, r, p)} :: Fewer(s, r, p)
  {
    var r := Apply(s, ClearOne(t));
    forall p ensures QueuesAt(s, r, t, p) && Fewer(s, r, p) {}
  }

  /** It leaves every queue it was in. */
  lemma WokenPollClears(s: State, t: Tid, fds: seq<Fd>, limit: bool) returns (steps: seq<Step>, r: State)
    requires PcOf(s, t) == PollWait(fds, limit) && St(s, t) == Awake
    ensures Leads(s, steps, r) && Alone(s, r, t) && OnlyQueues(s, r, t) && PcOf(r, t) == Scan(fds, 0, limit, false)
    ensures forall f :: f in fds ==> t !in At(r, f.p).rwq && t !in At(r, f.p).wwq
  {
    Begin(s);
    var a, s1 := Next(s, [], s, PollResume(t), t);
    var b, s2 := ClearsAll(s1, t, fds, 0, limit);
    b := More(s, a, s1, b, s2, t);
    steps, r := Next(s, b, s2, ClearDone(t), t);
    forall p ensures QueuesAt(s, r, t, p) { assert QueuesAt(s1, s2, t, p); }
    forall f | f in fds ensures t !in At(r, f.p).rwq && t !in At(r, f.p).wwq {
      var j :| 0 <= j < |fds| && fds[j] == f;
      assert t !in At(s2, fds[j].p).rwq && t !in At(s2, fds[j].p).wwq;
    }
  }

  /** A poller that is awake again leaves the queues and starts over: it returns if and only
      if something is ready now, or it gives up. */
  lemma WokenPollLooksAgain(s: State, t: Tid, fds: seq<Fd>, limit: bool, giveUp: bool)
    returns (steps: seq<Step>, r: State)
    requires PcOf(s, t) == PollWait(fds, limit) && St(s, t) == Awake
    ensures Leads(s, steps, r) && Alone(s, r, t) && OnlyQueues(s, r, t)
    ensures forall f :: f in fds ==> t !in At(r, f.p).rwq && t !in At(r, f.p).wwq
    ensures PcOf(r, t) == if giveUp || AnyReady(s, fds, 0) then Out else Register(fds, 0, limit, true)
  {
    var a, s1 := WokenPollClears(s, t, fds, limit);
    QueuesReady(s, s1, t, fds);
    var b, s2 := Scanned(s1, t, fds, 0, limit, false);
    b := More(s, a, s1, b, s2, t);
    steps, r := Next(s, b, s2, ScanDone(t, giveUp), t);
    forall p ensures QueuesAt(s, r, t, p) { assert QueuesAt(s, s1, t, p); }
  }
}
