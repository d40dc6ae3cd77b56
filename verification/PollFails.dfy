/** Where a poll does oversleep: the exact conditions, and runs of the kernel from its
    start that get there. */
module PollFails {
  import opened Prelude
  import opened PipeSpec
  import opened PipeSmp
  import opened PipeSmpProps
  import opened PollProps
  import opened PollRun

  /** A poller asleep with no deadline, a ready descriptor and nobody to wake it. */
  ghost predicate Overslept(s: State, t: Tid) {
    && PcOf(s, t).PollWait? && St(s, t) == Asleep(false) && !Pending(s, t)
    && exists f :: f in PcOf(s, t).fds && Ready(s, f)
  }

  // ---- runs, one step after another ---------------------------------------------

  /** `steps` lead from `s` to `r`, with wait slots enough. */
  ghost predicate Leads(s: State, steps: seq<Step>, r: State) {
    AllEnabled(s, steps) && AllRoomy(s, steps) && Run(s, steps) == r
  }

  ghost predicate LeadsFriendly(s: State, steps: seq<Step>, r: State) {
    Leads(s, steps, r) && AllFriendly(s, steps)
  }

  lemma {:induction false} OneMore(s: State, a: seq<Step>, step: Step)
    requires AllEnabled(s, a) && AllRoomy(s, a) && Enabled(Run(s, a), step) && Roomy(Run(s, a), step)
    ensures AllEnabled(s, a + [step]) && AllRoomy(s, a + [step]) && Run(s, a + [step]) == Apply(Run(s, a), step)
    ensures AllFriendly(s, a) && Friendly(Run(s, a), step) ==> AllFriendly(s, a + [step])
    decreases |a|
  {
    var b := a + [step];
    if a == [] {
      assert b[0] == step && b[1..] == [];
      var next := Apply(s, step);
      assert AllEnabled(next, b[1..]) && AllRoomy(next, b[1..]) && AllFriendly(next, b[1..]);
    } else {
      assert b[0] == a[0] && b[1..] == a[1..] + [step];
      OneMore(Apply(s, a[0]), a[1..], step);
    }
  }

  lemma Then(s: State, a: seq<Step>, m: State, step: Step) returns (b: seq<Step>, r: State)
    requires Leads(s, a, m) && Enabled(m, step) && Roomy(m, step)
    ensures r == Apply(m, step) && Leads(s, b, r)
    ensures LeadsFriendly(s, a, m) && Friendly(m, step) ==> LeadsFriendly(s, b, r)
  {
    OneMore(s, a, step);
    b, r := a + [step], Apply(m, step);
  }

  lemma Begin(s: State)
    ensures LeadsFriendly(s, [], s)
  {
  }

  lemma StillNotPending(s: State, r: State, t: Tid, u: Tid)
    requires !Pending(s, t) && (forall x :: x != u ==> PcOf(r, x) == PcOf(s, x)) && !WillWake(PcOf(r, u), t)
    ensures !Pending(r, t)
  {
    forall w | w in r.pc ensures !WillWake(r.pc[w], t) {
      assert PcOf(r, w) == r.pc[w];
      assert w != u ==> PcOf(s, w) == PcOf(r, w);
    }
  }

  // ---- losing the hold is losing the wake-up ------------------------------------

  lemma Harmless(s: State, step: Step)
    requires Enabled(s, step) && !Takes(step)
    ensures Friendly(s, step)
  {
  }

  lemma ReadOneFriendly(s: State, u: Tid)
    requires Enabled(s, Read(u)) && PcOf(s, u).want == 1 && |At(s, PcOf(s, u).p).buf| > 1
    ensures Friendly(s, Read(u))
  {
  }

  lemma WriteOneFriendly(s: State, u: Tid)
    requires Enabled(s, Write(u)) && |PcOf(s, u).data| == 1 && At(s, PcOf(s, u).p).buf == []
    ensures Friendly(s, Write(u))
  {
  }

  /** A poller registered as far as it could be, not yet asleep; `w` idle. */
  ghost predicate Poised(s: State, t: Tid, fds: seq<Fd>, w: Tid) {
    && PcOf(s, t) == Register(fds, |fds|, false, true) && !Pending(s, t) && w != t && PcOf(s, w) == Out
    && forall f :: f in fds ==> Asks(f) && EndCount(s, f) > 0
  }

  ghost predicate NoneReady(s: State, fds: seq<Fd>) { forall f :: f in fds ==> !Ready(s, f) }

  /** The poller `t` of `fds` is asleep for good unless woken. */
  ghost predicate SoundAsleep(s: State, t: Tid, fds: seq<Fd>) {
    PcOf(s, t) == PollWait(fds, false) && St(s, t) == Asleep(false) && !Pending(s, t)
  }

  /** It looks again from descriptor `i` on, and finds nothing. */
  lemma {:induction false} LooksAgain(s: State, t: Tid, fds: seq<Fd>, i: nat) returns (steps: seq<Step>, r: State)
    requires PcOf(s, t) == Rescan(fds, i, false, false) && i <= |fds| && NoneReady(s, fds)
    ensures LeadsFriendly(s, steps, r) && PcOf(r, t) == Rescan(fds, |fds|, false, false)
    ensures r.pipes == s.pipes && r.status == s.status && forall x :: x != t ==> PcOf(r, x) == PcOf(s, x)
    decreases |fds| - i
  {
    Begin(s);
    if i == |fds| {
      steps, r := [], s;
    } else {
      assert fds[i] in fds;
      Harmless(s, RescanOne(t));
      var a, s1 := Then(s, [], s, RescanOne(t));
      var b;
      b, r := LooksAgain(s1, t, fds, i + 1);
      LeadsOn(s, a, s1, b, r);
      steps := a + b;
    }
  }

  /** It goes to sleep. */
  lemma FallsAsleep(s: State, t: Tid, fds: seq<Fd>, w: Tid) returns (steps: seq<Step>, r: State)
    requires Poised(s, t, fds, w) && NoneReady(s, fds)
    ensures LeadsFriendly(s, steps, r) && SoundAsleep(r, t, fds) && PcOf(r, w) == Out && r.pipes == s.pipes
  {
    Begin(s);
    Harmless(s, MarkAsleep(t));
    var a, s1 := Then(s, [], s, MarkAsleep(t));
    var b, s2 := LooksAgain(s1, t, fds, 0);
    LeadsOn(s, a, s1, b, s2);
    Harmless(s2, Settle(t, false));
    steps, r := Then(s, a + b, s2, Settle(t, false));
    forall x | x != t ensures PcOf(r, x) == PcOf(s, x) {
      assert PcOf(s2, x) == PcOf(s1, x);
    }
    StillNotPending(s, r, t, t);
  }

  /** Room is made in a full pipe and nobody tells it. */
  lemma MissesRoom(s: State, t: Tid, fds: seq<Fd>, f: Fd, w: Tid) returns (steps: seq<Step>, r: State)
    requires SoundAsleep(s, t, fds) && f in fds && w != t && PcOf(s, w) == Out
    requires f.pollOut && !Ready(s, f) && t !in At(s, f.p).wwq && PipeOk(At(s, f.p))
    ensures LeadsFriendly(s, steps, r) && Overslept(r, t) && PcOf(r, t) == PollWait(fds, false)
  {
    Begin(s);
    Harmless(s, CallRead(w, f.p, 1));
    var a, s1 := Then(s, [], s, CallRead(w, f.p, 1));
    ReadOneFriendly(s1, w);
    steps, r := Then(s, a, s1, Read(w));
    StillNotPending(s, r, t, w);
    assert f in fds && Ready(r, f);
  }

  /** A byte arrives in an empty pipe and nobody tells it. */
  lemma MissesByte(s: State, t: Tid, fds: seq<Fd>, f: Fd, w: Tid) returns (steps: seq<Step>, r: State)
    requires SoundAsleep(s, t, fds) && f in fds && w != t && PcOf(s, w) == Out
    requires f.pollIn && !Ready(s, f) && t !in At(s, f.p).rwq && At(s, f.p).readers > 0
    ensures LeadsFriendly(s, steps, r) && Overslept(r, t) && PcOf(r, t) == PollWait(fds, false)
  {
    Begin(s);
    Harmless(s, CallWrite(w, f.p, [0]));
    var a, s1 := Then(s, [], s, CallWrite(w, f.p, [0]));
    WriteOneFriendly(s1, w);
    steps, r := Then(s, a, s1, Write(w));
    StillNotPending(s, r, t, w);
    assert f in fds && Ready(r, f);
  }

  lemma {:induction false} LeadsOn(s: State, a: seq<Step>, m: State, b: seq<Step>, r: State)
    requires LeadsFriendly(s, a, m) && LeadsFriendly(m, b, r)
    ensures LeadsFriendly(s, a + b, r)
    decreases |a|
  {
    var c := a + b;
    if a == [] {
      assert c == b;
    } else {
      assert c[0] == a[0] && c[1..] == a[1..] + b;
      LeadsOn(Apply(s, a[0]), a[1..], m, b, r);
    }
  }

  /** Without a hold the poller can be made to oversleep by steps that are all friendly. */
  lemma LostHoldOversleeps(s: State, t: Tid, fds: seq<Fd>, f: Fd, w: Tid) returns (steps: seq<Step>, r: State)
    requires Poised(s, t, fds, w) && NoneReady(s, fds) && f in fds && !Held(s, t, f) && PipeOk(At(s, f.p))
    ensures LeadsFriendly(s, steps, r) && Overslept(r, t) && PcOf(r, t) == PollWait(fds, false)
  {
    var a, m := FallsAsleep(s, t, fds, w);
    var b;
    if f.pollOut { b, r := MissesRoom(m, t, fds, f, w); } else { b, r := MissesByte(m, t, fds, f, w); }
    LeadsOn(s, a, m, b, r);
    steps := a + b;
  }

  /** The poll invariant, but for what `t` holds. */
  ghost predicate PollInvBut(s: State, t: Tid) {
    && Inv(s) && Anonymous(s)
    && (forall u :: u != t ==> PollOk(s, u))
    && (forall u :: EndsOk(s, u))
  }

  ghost predicate AllHeld(s: State, t: Tid, fds: seq<Fd>) { forall f :: f in fds ==> Held(s, t, f) }

  lemma HeldIsInv(s: State, t: Tid, fds: seq<Fd>, w: Tid)
    requires Poised(s, t, fds, w) && PollInvBut(s, t) && AllHeld(s, t, fds)
    ensures PollInv(s)
  {
    forall u ensures PollOk(s, u) {
      if u == t { forall j | 0 <= j < |fds| ensures Held(s, t, fds[j]) { assert fds[j] in fds; } }
    }
  }

  lemma NoneOversleeps(s: State, steps: seq<Step>, t: Tid, fds: seq<Fd>)
    requires PollInv(s) && AllEnabled(s, steps) && AllRoomy(s, steps) && AllFriendly(s, steps)
    requires PcOf(Run(s, steps), t) == PollWait(fds, false) && forall f :: f in fds ==> Asks(f)
    ensures !Overslept(Run(s, steps), t)
  {
    PollRunKeeps(s, steps);
    var r := Run(s, steps);
    assert PollOk(r, t);
    if St(r, t) == Asleep(false) && !Pending(r, t) {
      forall f | f in fds ensures !Ready(r, f) {
        var j :| 0 <= j < |fds| && fds[j] == f;
        assert Caught(r, t, fds[j]);
      }
    }
  }

  /** The hold is the exact condition, whatever the number of descriptors: if each is
      registered or will be seen when the poller looks again, none is ever slept through,
      whatever friendly steps follow; if none is ready and one is not held, that one can be. */
  lemma HoldIsExact(s: State, t: Tid, fds: seq<Fd>, w: Tid)
    requires Poised(s, t, fds, w) && PollInvBut(s, t) && (AllHeld(s, t, fds) || NoneReady(s, fds))
    ensures AllHeld(s, t, fds) <==>
              forall steps, r :: LeadsFriendly(s, steps, r) && PcOf(r, t) == PollWait(fds, false) ==> !Overslept(r, t)
  {
    if AllHeld(s, t, fds) {
      HeldIsInv(s, t, fds, w);
      forall steps, r | LeadsFriendly(s, steps, r) && PcOf(r, t) == PollWait(fds, false) ensures !Overslept(r, t) {
        NoneOversleeps(s, steps, t, fds);
      }
    } else {
      var f :| f in fds && !Held(s, t, f);
      assert PipeOk(At(s, f.p));
      var steps, r := LostHoldOversleeps(s, t, fds, f, w);
    }
  }

  // ---- a read of zero bytes -----------------------------------------------------

  const Full: seq<Byte> := seq(PIPE_BUF_SIZE, _ => 0)

  lemma Writes(data: seq<Byte>) returns (steps: seq<Step>, r: State)
    requires |data| == PIPE_BUF_SIZE
    ensures Leads(Start({0}), steps, r) && At(r, 0) == Pipe(data, 1, 1, {}, {}, data, []) && r.status == map[]
    ensures PcOf(r, 2) == Waking({}, Writing(0, [])) && forall x :: x != 2 ==> PcOf(r, x) == Out
  {
    var s := Start({0});
    Begin(s);
    assert At(s, 0) == NewPipe() && PcOf(s, 2) == Out;
    var a, s1 := Then(s, [], s, CallWrite(2, 0, data));
    assert data[..PIPE_BUF_SIZE] == data && [] + data == data && data[PIPE_BUF_SIZE..] == [];
    steps, r := Then(s, a, s1, Write(2));
  }

  /** Task 2 fills pipe 0. */
  lemma Filled() returns (steps: seq<Step>, r: State)
    ensures Leads(Start({0}), steps, r) && At(r, 0) == Pipe(Full, 1, 1, {}, {}, Full, [])
    ensures (forall x :: PcOf(r, x) == Out) && forall x :: St(r, x) == Awake
  {
    var a, s1 := Writes(Full);
    var b, s2 := Then(Start({0}), a, s1, WokeAll(2));
    steps, r := Then(Start({0}), b, s2, Write(2));
    forall x ensures PcOf(r, x) == Out { assert x != 2 ==> PcOf(s1, x) == Out; }
  }

  /** Task 1, alone in the kernel, polls `f`, finds it unready and goes to register. */
  lemma Scans(s: State, steps0: seq<Step>, m: State, f: Fd) returns (steps: seq<Step>, r: State)
    requires Leads(s, steps0, m) && (forall x :: PcOf(m, x) == Out) && !Ready(m, f) && EndCount(m, f) > 0
    ensures Leads(s, steps, r) && r.pipes == m.pipes && r.status == m.status
    ensures PcOf(r, 1) == Register([f], 0, false, true) && forall x :: x != 1 ==> PcOf(r, x) == Out
  {
    assert [f][0] == f;
    var a, s1 := Then(s, steps0, m, CallPoll(1, [f], false));
    var b, s2 := Then(s, a, s1, ScanOne(1));
    steps, r := Then(s, b, s2, ScanDone(1, false));
    forall x | x != 1 ensures PcOf(r, x) == Out { assert PcOf(m, x) == Out; }
  }

  lemma Registers(s: State, steps0: seq<Step>, m: State, f: Fd) returns (steps: seq<Step>, r: State)
    requires Leads(s, steps0, m) && PcOf(m, 1) == Register([f], 0, false, true) && !(f.pollIn && f.pollOut)
    requires At(m, f.p).rwq == {} && At(m, f.p).wwq == {} && forall x :: x != 1 ==> PcOf(m, x) == Out
    ensures Leads(s, steps, r) && r.status == m.status
    ensures At(r, f.p) == At(m, f.p).(rwq := if f.pollIn then {1} else {}, wwq := if f.pollOut then {1} else {})
    ensures PcOf(r, 1) == Register([f], 1, false, true) && (forall x :: x != 1 ==> PcOf(r, x) == Out) && !Pending(r, 1)
  {
    steps, r := Then(s, steps0, m, RegisterOne(1));
    forall x | x != 1 ensures PcOf(r, x) == Out { assert PcOf(m, x) == Out; }
    forall w | w in r.pc ensures !WillWake(r.pc[w], 1) { assert PcOf(r, w) == r.pc[w]; }
  }

  /** Task 2 reads zero bytes, and so takes the poller off the queue. */
  lemma ReadsNothing(s: State, steps0: seq<Step>, m: State) returns (steps: seq<Step>, r: State)
    requires Leads(s, steps0, m) && At(m, 0) == Pipe(Full, 1, 1, {}, {1}, Full, [])
    requires forall x :: x != 1 ==> PcOf(m, x) == Out
    ensures Leads(s, steps, r) && At(r, 0) == Pipe(Full, 1, 1, {}, {}, Full, []) && r.status == m.status
    ensures PcOf(r, 2) == Waking({1}, Out) && forall x :: x != 2 ==> PcOf(r, x) == PcOf(m, x)
  {
    var a, s1 := Then(s, steps0, m, CallRead(2, 0, 0));
    assert Full[0..] == Full && [] + Full[..0] == [];
    steps, r := Then(s, a, s1, Read(2));
  }

  /** The poller is not asleep yet, so the wake-up does nothing. */
  lemma WakesInVain(s: State, steps0: seq<Step>, m: State) returns (steps: seq<Step>, r: State)
    requires Leads(s, steps0, m) && PcOf(m, 2) == Waking({1}, Out)
    ensures Leads(s, steps, r) && r.pipes == m.pipes
    ensures PcOf(r, 2) == Out && forall x :: x != 2 ==> PcOf(r, x) == PcOf(m, x)
  {
    var a, s1 := Then(s, steps0, m, WakeOne(2, 1));
    assert {1} - {1} == {};
    assert PcOf(s1, 2) == Waking({}, Out);
    steps, r := Then(s, a, s1, WokeAll(2));
  }

  lemma {:induction false} LeadsAfter(s: State, a: seq<Step>, m: State, b: seq<Step>, r: State)
    requires Leads(s, a, m) && Leads(m, b, r)
    ensures Leads(s, a + b, r)
    decreases |a|
  {
    var c := a + b;
    if a == [] {
      assert c == b;
    } else {
      assert c[0] == a[0] && c[1..] == a[1..] + b;
      LeadsAfter(Apply(s, a[0]), a[1..], m, b, r);
    }
  }

  /** From the start: a pipe is filled, its write end polled for output, zero bytes are read
      before the poller sleeps, one byte after, and the poller sleeps on beside the room. */
  lemma EmptyReadLosesWakeup() returns (steps: seq<Step>)
    ensures AllEnabled(Start({0}), steps) && AllRoomy(Start({0}), steps)
    ensures Overslept(Run(Start({0}), steps), 1)
  {
    var s := Start({0});
    var f := Fd(0, false, false, true);
    var a, s1 := Filled();
    var b, s2 := Scans(s, a, s1, f);
    var c, s3 := Registers(s, b, s2, f);
    var d, s4 := ReadsNothing(s, c, s3);
    var e, s5 := WakesInVain(s, d, s4);
    StillNotPending(s3, s5, 1, 2);
    var g, r := LostHoldOversleeps(s5, 1, [f], f, 2);
    LeadsAfter(s, e, s5, g, r);
    steps := e + g;
  }

  // ---- a poll for nothing -------------------------------------------------------

  /** The close of the last write end wakes a sleeping poller if and only if it is in one of
      the two queues, although every poll of that pipe reports the hang-up. */
  lemma HangupWakesIff(s: State, t: Tid, f: Fd, u: Tid)
    requires PcOf(s, t).PollWait? && !Pending(s, t) && u != t
    requires f in PcOf(s, t).fds && At(s, f.p).writers == 1 && Enabled(s, Close(u, f.p, false))
    ensures Ready(Apply(s, Close(u, f.p, false)), f)
    ensures Pending(Apply(s, Close(u, f.p, false)), t) <==> t in At(s, f.p).rwq || t in At(s, f.p).wwq
  {
    var r := Apply(s, Close(u, f.p, false));
    if t in At(s, f.p).rwq + At(s, f.p).wwq { NowPending(r, u, t); } else { StillNotPending(s, r, t, u); }
  }

  /** From the start: task 1 polls its read end for neither input nor output, task 2 closes
      the write end, and task 1 sleeps on beside the hang-up. */
  lemma SilentPollOversleeps() returns (steps: seq<Step>)
    ensures AllEnabled(Start({0}), steps) && AllRoomy(Start({0}), steps)
    ensures Overslept(Run(Start({0}), steps), 1)
  {
    var s := Start({0});
    var f := Fd(0, true, false, false);
    Begin(s);
    assert At(s, 0) == NewPipe();
    var a, s1 := Scans(s, [], s, f);
    var b, s2 := Registers(s, a, s1, f);
    var c, s3 := SleepsSilently(s, b, s2, f);
    HangupWakesIff(s3, 1, f, 2);
    var r;
    steps, r := Then(s, c, s3, Close(2, 0, false));
    assert f in PcOf(r, 1).fds;
  }

  lemma SleepsSilently(s: State, steps0: seq<Step>, m: State, f: Fd) returns (steps: seq<Step>, r: State)
    requires Leads(s, steps0, m) && PcOf(m, 1) == Register([f], 1, false, true) && !Ready(m, f) && !Pending(m, 1)
    ensures Leads(s, steps, r) && PcOf(r, 1) == PollWait([f], false) && St(r, 1) == Asleep(false) && !Pending(r, 1)
    ensures r.pipes == m.pipes && forall x :: x != 1 ==> PcOf(r, x) == PcOf(m, x)
  {
    var a, s1 := Then(s, steps0, m, MarkAsleep(1));
    var b, s2 := Then(s, a, s1, RescanOne(1));
    steps, r := Then(s, b, s2, Settle(1, false));
    StillNotPending(m, r, 1, 1);
  }
}
