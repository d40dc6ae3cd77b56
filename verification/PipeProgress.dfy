/** What one read, write or close comes to, from the call to the return, and that a task
    that blocked gets on once it is woken. */
module PipeProgress {
  import opened Prelude
  import opened PipeSpec
  import opened PipeSmp
  import opened PipeSmpProps
  import opened PollProps
  import opened PollRun
  import opened PollFails

  /** Pipes other than `p` and the positions of tasks other than `t` are as they were. */
  ghost predicate OnlyHere(s: State, r: State, t: Tid, p: PipeId) {
    && (forall q :: q != p ==> At(r, q) == At(s, q))
    && (forall x :: x != t ==> PcOf(r, x) == PcOf(s, x))
  }

  /** Exactly the tasks of `list` have been woken. */
  ghost predicate Roused(s: State, r: State, t: Tid, list: set<Tid>) {
    forall x :: x != t ==> St(r, x) == if x in list then Awake else St(s, x)
  }

  /** A task with wake-ups to do does them all and goes on. */
  lemma {:induction false} WakesAll(s: State, t: Tid, list: set<Tid>, next: Pc) returns (steps: seq<Step>, r: State)
    requires PcOf(s, t) == Waking(list, next)
    ensures Leads(s, steps, r) && PcOf(r, t) == next && r.pipes == s.pipes
    ensures forall x :: x != t ==> PcOf(r, x) == PcOf(s, x)
    ensures forall x :: St(r, x) == if x in list then Awake else St(s, x)
    decreases |list|
  {
    Begin(s);
    if list == {} {
      steps, r := Then(s, [], s, WokeAll(t));
    } else {
      var x :| x in list;
      var a, s1 := Then(s, [], s, WakeOne(t, x));
      WokenOne(s, t, x);
      var b;
      b, r := WakesAll(s1, t, list - {x}, next);
      LeadsAfter(s, a, s1, b, r);
      steps := a + b;
    }
  }

  lemma WokenOne(s: State, t: Tid, x: Tid)
    requires Enabled(s, WakeOne(t, x))
    ensures var r, c := Apply(s, WakeOne(t, x)), PcOf(s, t);
            && PcOf(r, t) == Waking(c.list - {x}, c.next) && r.pipes == s.pipes
            && (forall y :: y != t ==> PcOf(r, y) == PcOf(s, y))
            && (forall y :: St(r, y) == if y == x then Awake else St(s, y))
  {
  }

  // ---- reading ------------------------------------------------------------------

  /** The oldest `n` bytes have been delivered. */
  ghost predicate Delivered(s: State, r: State, p: PipeId, n: nat) {
    var x, y := At(s, p), At(r, p);
    && n <= |x.buf| && y.delivered == x.delivered + x.buf[..n] && y.buf == x.buf[n..] && y.accepted == x.accepted
    && y.readers == x.readers && y.writers == x.writers
  }

  /** A reader that finds bytes gets as many as there are, up to what it asked for, wakes
      every writer that waits, and returns. */
  lemma ReadGets(s: State, t: Tid) returns (steps: seq<Step>, r: State)
    requires PcOf(s, t).Reading? && At(s, PcOf(s, t).p).buf != []
    ensures var p, want := PcOf(s, t).p, PcOf(s, t).want;
            && Leads(s, steps, r) && PcOf(r, t) == Out && OnlyHere(s, r, t, p)
            && Delivered(s, r, p, Min(want, |At(s, p).buf|))
            && Roused(s, r, t, At(s, p).wwq) && At(r, p).wwq == {} && At(r, p).rwq == At(s, p).rwq
  {
    Begin(s);
    var p := PcOf(s, t).p;
    var a, s1 := Then(s, [], s, Read(t));
    var b;
    b, r := WakesAll(s1, t, At(s, p).wwq, Out);
    LeadsAfter(s, a, s1, b, r);
    steps := a + b;
    forall x | x != t ensures PcOf(r, x) == PcOf(s, x) { assert PcOf(s1, x) == PcOf(s, x); }
    assert At(r, p) == At(s1, p);
  }

  /** read on a pipe with bytes. */
  lemma ReadReturns(s: State, t: Tid, p: PipeId, want: nat) returns (steps: seq<Step>, r: State)
    requires Enabled(s, CallRead(t, p, want)) && At(s, p).buf != []
    ensures Leads(s, steps, r) && PcOf(r, t) == Out && OnlyHere(s, r, t, p)
    ensures Delivered(s, r, p, Min(want, |At(s, p).buf|)) && Roused(s, r, t, At(s, p).wwq)
  {
    Begin(s);
    var a, s1 := Then(s, [], s, CallRead(t, p, want));
    var b;
    b, r := ReadGets(s1, t);
    LeadsAfter(s, a, s1, b, r);
    steps := a + b;
    forall x | x != t ensures PcOf(r, x) == PcOf(s, x) { assert PcOf(s1, x) == PcOf(s, x); }
    assert forall q :: At(s1, q) == At(s, q);
  }

  /** A read of an empty pipe reports the end if nobody can write, and else goes to sleep in
      the queue. */
  lemma ReadOfEmpty(s: State, t: Tid)
    requires PcOf(s, t).Reading? && At(s, PcOf(s, t).p).buf == [] && HasRoom(At(s, PcOf(s, t).p).rwq, t)
    ensures var p := PcOf(s, t).p; var x, r := At(s, p), Apply(s, Read(t));
            if x.writers == 0 then r == SetPc(s, t, Out)
            else PcOf(r, t) == ReadWait(p, PcOf(s, t).want) && St(r, t) == Asleep(false)
                 && At(r, p) == x.(rwq := x.rwq + {t}) && OnlyHere(s, r, t, p)
  {
  }

  /** A blocked reader that is woken and finds bytes gets them. */
  lemma WokenReaderGets(s: State, t: Tid) returns (steps: seq<Step>, r: State)
    requires PcOf(s, t).ReadWait? && St(s, t) == Awake && At(s, PcOf(s, t).p).buf != []
    ensures var p, want := PcOf(s, t).p, PcOf(s, t).want;
            && Leads(s, steps, r) && PcOf(r, t) == Out && OnlyHere(s, r, t, p)
            && Delivered(s, r, p, Min(want, |At(s, p).buf|)) && t !in At(r, p).rwq
  {
    Begin(s);
    var p := PcOf(s, t).p;
    var a, s1 := Then(s, [], s, Retry(t));
    var b;
    b, r := ReadGets(s1, t);
    LeadsAfter(s, a, s1, b, r);
    steps := a + b;
    forall x | x != t ensures PcOf(r, x) == PcOf(s, x) { assert PcOf(s1, x) == PcOf(s, x); }
    forall q | q != p ensures At(r, q) == At(s, q) { assert At(s1, q) == At(s, q); }
    assert At(s1, p) == At(s, p).(rwq := At(s, p).rwq - {t});
  }

  // ---- writing ------------------------------------------------------------------

  /** The first `n` bytes of `data` have been accepted. */
  ghost predicate Accepted(s: State, r: State, p: PipeId, data: seq<Byte>, n: nat) {
    var x, y := At(s, p), At(r, p);
    && n <= |data| && y.accepted == x.accepted + data[..n] && y.buf == x.buf + data[..n] && y.delivered == x.delivered
    && y.readers == x.readers && y.writers == x.writers
  }

  /** A writer that finds room puts in as much as fits, wakes every reader that waits, and
      goes on with the rest. */
  lemma WritePuts(s: State, t: Tid) returns (steps: seq<Step>, r: State)
    requires PcOf(s, t).Writing? && PcOf(s, t).data != []
    requires At(s, PcOf(s, t).p).readers > 0 && |At(s, PcOf(s, t).p).buf| < PIPE_BUF_SIZE
    ensures var p, data := PcOf(s, t).p, PcOf(s, t).data;
            var n := Min(|data|, PIPE_BUF_SIZE - |At(s, p).buf|);
            && Leads(s, steps, r) && 0 < n && PcOf(r, t) == Writing(p, data[n..]) && OnlyHere(s, r, t, p)
            && Accepted(s, r, p, data, n)
            && Roused(s, r, t, At(s, p).rwq) && At(r, p).rwq == {} && At(r, p).wwq == At(s, p).wwq
  {
    Begin(s);
    var p, data := PcOf(s, t).p, PcOf(s, t).data;
    var a, s1 := Then(s, [], s, Write(t));
    var b;
    b, r := WakesAll(s1, t, At(s, p).rwq, Writing(p, data[Min(|data|, PIPE_BUF_SIZE - |At(s, p).buf|)..]));
    LeadsAfter(s, a, s1, b, r);
    steps := a + b;
    forall x | x != t ensures PcOf(r, x) == PcOf(s, x) { assert PcOf(s1, x) == PcOf(s, x); }
    assert At(r, p) == At(s1, p);
  }

  /** write of what fits returns with all of it accepted. */
  lemma WriteReturns(s: State, t: Tid, p: PipeId, data: seq<Byte>) returns (steps: seq<Step>, r: State)
    requires Enabled(s, CallWrite(t, p, data)) && At(s, p).readers > 0 && |At(s, p).buf| + |data| <= PIPE_BUF_SIZE
    requires data != []
    ensures Leads(s, steps, r) && PcOf(r, t) == Out && OnlyHere(s, r, t, p)
    ensures Accepted(s, r, p, data, |data|) && Roused(s, r, t, At(s, p).rwq)
  {
    Begin(s);
    var a, s1 := Then(s, [], s, CallWrite(t, p, data));
    var b, s2 := WritePuts(s1, t);
    LeadsAfter(s, a, s1, b, s2);
    assert data[|data|..] == [];
    steps, r := Then(s, a + b, s2, Write(t));
    WrittenOut(s, s1, s2, r, t, p);
  }

  lemma WrittenOut(s: State, s1: State, s2: State, r: State, t: Tid, p: PipeId)
    requires s1.pipes == s.pipes && s1.status == s.status && r == SetPc(s2, t, Out)
    requires OnlyHere(s1, s2, t, p) && forall x :: x != t ==> PcOf(s1, x) == PcOf(s, x)
    ensures OnlyHere(s, r, t, p) && At(r, p) == At(s2, p) && forall x :: St(r, x) == St(s2, x)
  {
    forall x | x != t ensures PcOf(r, x) == PcOf(s, x) { assert PcOf(s2, x) == PcOf(s1, x); }
    forall q | q != p ensures At(r, q) == At(s, q) { assert At(s2, q) == At(s1, q); }
  }

  /** A write nobody will read is given up; a write to a full pipe goes to sleep in the
      queue. */
  lemma WriteOfFull(s: State, t: Tid)
    requires PcOf(s, t).Writing? && PcOf(s, t).data != [] && HasRoom(At(s, PcOf(s, t).p).wwq, t)
    requires At(s, PcOf(s, t).p).readers == 0 || |At(s, PcOf(s, t).p).buf| >= PIPE_BUF_SIZE
    ensures var p := PcOf(s, t).p; var x, r := At(s, p), Apply(s, Write(t));
            if x.readers == 0 then r == SetPc(s, t, Out)
            else PcOf(r, t) == WriteWait(p, PcOf(s, t).data) && St(r, t) == Asleep(false)
                 && At(r, p) == x.(wwq := x.wwq + {t}) && OnlyHere(s, r, t, p)
  {
  }

  /** A blocked writer that is woken and finds room puts in what fits. */
  lemma WokenWriterPuts(s: State, t: Tid) returns (steps: seq<Step>, r: State)
    requires PcOf(s, t).WriteWait? && St(s, t) == Awake && PcOf(s, t).data != []
    requires At(s, PcOf(s, t).p).readers > 0 && |At(s, PcOf(s, t).p).buf| < PIPE_BUF_SIZE
    ensures var p, data := PcOf(s, t).p, PcOf(s, t).data;
            var n := Min(|data|, PIPE_BUF_SIZE - |At(s, p).buf|);
            && Leads(s, steps, r) && 0 < n && PcOf(r, t) == Writing(p, data[n..]) && OnlyHere(s, r, t, p)
            && Accepted(s, r, p, data, n) && t !in At(r, p).wwq
  {
    Begin(s);
    var p := PcOf(s, t).p;
    var a, s1 := Then(s, [], s, Retry(t));
    var b;
    b, r := WritePuts(s1, t);
    LeadsAfter(s, a, s1, b, r);
    steps := a + b;
    forall x | x != t ensures PcOf(r, x) == PcOf(s, x) { assert PcOf(s1, x) == PcOf(s, x); }
    forall q | q != p ensures At(r, q) == At(s, q) { assert At(s1, q) == At(s, q); }
    assert At(s1, p) == At(s, p).(wwq := At(s, p).wwq - {t});
  }

  // ---- both ---------------------------------------------------------------------

  /** Bytes written to an empty pipe are the bytes the next read of that many delivers. */
  lemma WriteThenRead(s: State, t: Tid, u: Tid, p: PipeId, data: seq<Byte>) returns (steps: seq<Step>, r: State)
    requires t != u && Enabled(s, CallWrite(t, p, data)) && Enabled(s, CallRead(u, p, |data|))
    requires At(s, p).buf == [] && 0 < |data| <= PIPE_BUF_SIZE
    ensures Leads(s, steps, r) && PcOf(r, t) == Out && PcOf(r, u) == Out
    ensures At(r, p).delivered == At(s, p).delivered + data && At(r, p).buf == []
  {
    var a, m := WriteReturns(s, t, p, data);
    assert data[..|data|] == data && PcOf(m, u) == PcOf(s, u);
    var b;
    b, r := ReadReturns(m, u, p, |data|);
    LeadsAfter(s, a, m, b, r);
    steps := a + b;
    assert [] + data == data && data[..|data|] == data;
    assert PcOf(r, t) == PcOf(m, t);
  }

  /** A reader blocked on the empty pipe is woken by the write and gets the bytes. */
  lemma BlockedReaderIsServed(s: State, t: Tid, u: Tid, p: PipeId, data: seq<Byte>)
    returns (steps: seq<Step>, r: State)
    requires t != u && Enabled(s, CallWrite(t, p, data)) && At(s, p).readers > 0
    requires PcOf(s, u).ReadWait? && PcOf(s, u).p == p && PcOf(s, u).want >= |data| && u in At(s, p).rwq
    requires At(s, p).buf == [] && 0 < |data| <= PIPE_BUF_SIZE
    ensures Leads(s, steps, r) && PcOf(r, u) == Out && At(r, p).delivered == At(s, p).delivered + data
  {
    var a, m := WriteReturns(s, t, p, data);
    assert data[..|data|] == data && [] + data == data && PcOf(m, u) == PcOf(s, u) && St(m, u) == Awake;
    var b;
    b, r := WokenReaderGets(m, u);
    LeadsAfter(s, a, m, b, r);
    steps := a + b;
  }

  /** A close takes one end away, keeps the bytes, and wakes everybody who waits. */
  lemma CloseWakesAll(s: State, t: Tid, p: PipeId, readEnd: bool) returns (steps: seq<Step>, r: State)
    requires Enabled(s, Close(t, p, readEnd))
    ensures Leads(s, steps, r) && PcOf(r, t) == Out && OnlyHere(s, r, t, p)
    ensures Roused(s, r, t, At(s, p).rwq + At(s, p).wwq)
    ensures var x, y := At(s, p), At(r, p);
            && y.buf == x.buf && y.accepted == x.accepted && y.delivered == x.delivered
            && y.readers == x.readers - (if readEnd then 1 else 0)
            && y.writers == x.writers - (if readEnd then 0 else 1)
            && y.rwq == {} && y.wwq == {}
  {
    Begin(s);
    var a, s1 := Then(s, [], s, Close(t, p, readEnd));
    var b;
    b, r := WakesAll(s1, t, At(s, p).rwq + At(s, p).wwq, Out);
    LeadsAfter(s, a, s1, b, r);
    steps := a + b;
    forall x | x != t ensures PcOf(r, x) == PcOf(s, x) { assert PcOf(s1, x) == PcOf(s, x); }
    assert At(r, p) == At(s1, p);
  }
}
