/** Histories of pipe, open, dup, dup2, dup3, fork, close, exec and exit. */
module FdRun {
  import opened Prelude
  import opened FdSpec
  import opened FdProps
  import FE = FdEffects

  datatype Op =
    | OpPipe(t: Tid, p: PipeId, rf: FileId, wf: FileId, memory: bool, cloexec: bool)
    | OpOpen(t: Tid, file: Option<FileId>, copied: bool, memory: bool, cloexec: bool)
    | OpDup(t: Tid, oldfd: int, from: nat, memory: bool, cloexec: bool)
    | OpDup2(t: Tid, oldfd: int, newfd: int, memory: bool)
    | OpDup3(t: Tid, oldfd: int, newfd: int, memory: bool, cloexec: bool)
    | OpFork(t: Tid, child: Tid, mem: seq<bool>)
    | OpClose(t: Tid, fd: int)
    | OpExec(t: Tid)
    | OpExit(t: Tid)

  /** New objects come from free memory, and a forked child starts with no descriptor. */
  ghost predicate Allowed(s: State, op: Op) {
    match op
    case OpPipe(t, p, rf, wf, memory, cloexec) => Fresh(s, p, rf, wf)
    case OpOpen(t, file, copied, memory, cloexec) => file.Some? ==> file.value !in s.files
    case OpFork(t, child, mem) => |mem| == MAX_FDS && Bare(s, child, 0)
    case _ => true
  }

  ghost function Step(s: State, op: Op): State
    requires Allowed(s, op)
  {
    match op
    case OpPipe(t, p, rf, wf, memory, cloexec) => MakePipe(s, t, p, rf, wf, memory, cloexec)
    case OpOpen(t, file, copied, memory, cloexec) => Open(s, t, file, copied, memory, cloexec)
    case OpDup(t, oldfd, from, memory, cloexec) => Dup(s, t, oldfd, from, memory, cloexec)
    case OpDup2(t, oldfd, newfd, memory) => Dup2(s, t, oldfd, newfd, memory)
    case OpDup3(t, oldfd, newfd, memory, cloexec) => Dup3(s, t, oldfd, newfd, memory, cloexec)
    case OpFork(t, child, mem) => Fork(s, t, child, mem)
    case OpClose(t, fd) => Close(s, t, fd)
    case OpExec(t) => CloseRange(s, t, 0, MAX_FDS, true)
    case OpExit(t) => CloseRange(s, t, 0, MAX_FDS, false)
  }

  lemma StepKeeps(s: State, op: Op)
    requires Inv(s) && Allowed(s, op)
    ensures Inv(Step(s, op))
  {
    match op
    case OpPipe(t, p, rf, wf, memory, cloexec) => MakePipeKeeps(s, t, p, rf, wf, memory, cloexec);
    case OpOpen(t, file, copied, memory, cloexec) => OpenKeeps(s, t, file, copied, memory, cloexec);
    case OpDup(t, oldfd, from, memory, cloexec) =>
      if !BadFd(s, t, oldfd) { ReplaceKeeps(s, t, oldfd, LowestFree(s, t, from), memory, cloexec); }
    case OpDup2(t, oldfd, newfd, memory) =>
      if !BadFd(s, t, oldfd) && newfd >= 0 { ReplaceKeeps(s, t, oldfd, newfd, memory, false); }
    case OpDup3(t, oldfd, newfd, memory, cloexec) =>
      if !BadFd(s, t, oldfd) && newfd >= 0 { ReplaceKeeps(s, t, oldfd, newfd, memory, cloexec); }
    case OpFork(t, child, mem) => ForkKeeps(s, t, child, mem);
    case OpClose(t, fd) => if !BadFd(s, t, fd) { ReleaseKeeps(s, Slot(t, fd)); }
    case OpExec(t) => CloseRangeKeeps(s, t, 0, MAX_FDS, true);
    case OpExit(t) => CloseRangeKeeps(s, t, 0, MAX_FDS, false);
  }

  const Empty := State(map[], map[], map[], 0, 0, false)

  ghost predicate AllAllowed(s: State, ops: seq<Op>)
    decreases |ops|
  {
    ops == [] || (Allowed(s, ops[0]) && AllAllowed(Step(s, ops[0]), ops[1..]))
  }

  ghost function Run(s: State, ops: seq<Op>): State
    requires AllAllowed(s, ops)
    decreases |ops|
  {
    if ops == [] then s else Run(Step(s, ops[0]), ops[1..])
  }

  lemma {:induction false} RunKeeps(s: State, ops: seq<Op>)
    requires Inv(s) && AllAllowed(s, ops)
    ensures Inv(Run(s, ops))
    decreases |ops|
  {
    if ops != [] {
      StepKeeps(s, ops[0]);
      RunKeeps(Step(s, ops[0]), ops[1..]);
    }
  }

  /** Over every history: no freed object is used; an object's count is the number of
      descriptors naming it in all tasks; a pipe's counts are those of its live ends;
      every pipe created is either live or freed once. */
  lemma BooksAreExact(ops: seq<Op>)
    requires AllAllowed(Empty, ops)
    ensures var s := Run(Empty, ops);
            && !s.bad && s.made == s.gone + |s.pipes|
            && (forall f :: f in s.files ==> s.files[f].refs == |Names(s.fds, f)| > 0)
            && (forall p :: p in s.pipes ==>
                  && s.pipes[p].refs == s.pipes[p].readers + s.pipes[p].writers
                  && s.pipes[p].readers == |Ends(s.files, p, true)| && s.pipes[p].writers == |Ends(s.files, p, false)|)
  {
    RunKeeps(Empty, ops);
    var s := Run(Empty, ops);
    forall f | f in s.files ensures s.files[f].refs == |Names(s.fds, f)| > 0 { assert FileOk(s, f); }
    forall p | p in s.pipes
      ensures s.pipes[p].refs == s.pipes[p].readers + s.pipes[p].writers
      ensures s.pipes[p].readers == |Ends(s.files, p, true)| && s.pipes[p].writers == |Ends(s.files, p, false)|
    {
      assert PipeOk(s, p);
    }
  }

  lemma PipeFirst(s: State)
    requires s == Step(Empty, OpPipe(1, 0, 0, 1, true, false))
    ensures s.fds == map[Slot(1, 0) := Entry(Some(0), false, false), Slot(1, 1) := Entry(Some(1), false, false)]
  {
    assert LowestFree(Empty, 1, 0) == 0 && LowestFree(Empty, 1, 1) == 1;
  }

  lemma OpenThird(s: State)
    requires s.fds == map[Slot(1, 0) := Entry(Some(0), false, false), Slot(1, 1) := Entry(Some(1), false, false)]
    ensures Open(s, 1, None, true, true, false).fds == s.fds[Slot(1, 2) := Entry(None, true, false)]
  {
    assert LowestFree(s, 1, 2) == 2 && LowestFree(s, 1, 1) == 2 && LowestFree(s, 1, 0) == 2;
  }

  lemma RunTwo(a: Op, b: Op)
    requires Allowed(Empty, a) && Allowed(Step(Empty, a), b)
    ensures AllAllowed(Empty, [a, b]) && Run(Empty, [a, b]) == Step(Step(Empty, a), b)
  {
    var s1 := Step(Empty, a);
    var s2 := Step(s1, b);
    assert [a, b][1..] == [b] && [b][1..] == [];
    assert AllAllowed(s2, []);
    assert AllAllowed(s1, [b]) && Run(s1, [b]) == s2;
  }

  lemma FailsAtThird(s: State, mem: seq<bool>)
    requires s.fds == map[Slot(1, 0) := Entry(Some(0), false, false), Slot(1, 1) := Entry(Some(1), false, false)]
                         [Slot(1, 2) := Entry(None, true, false)]
    requires |mem| == MAX_FDS && !mem[2]
    ensures FirstFailure(s, 1, 0, mem) == 2 && Slot(2, 0) in CloneRange(s, 1, 2, 0, 2).fds
  {
    assert FirstFailure(s, 1, 2, mem) == 2 && FirstFailure(s, 1, 1, mem) == 2;
    CloneRangeCopies(s, 1, 2, 0, 2);
  }

  /** The rollback is not dead in the model: were there a descriptor that owns a private
      copy, a fork could fail at it with the clones before it to undo. No opener makes
      one, see `ClonesNeverFail`. */
  lemma RollbackHappens(a: Op, b: Op, mem: seq<bool>)
    requires a == OpPipe(1, 0, 0, 1, true, false) && b == OpOpen(1, None, true, true, false)
    requires |mem| == MAX_FDS && !mem[2]
    ensures AllAllowed(Empty, [a, b])
    ensures var s := Run(Empty, [a, b]);
            && FirstFailure(s, 1, 0, mem) == 2 && Allowed(s, OpFork(1, 2, mem))
            && Slot(2, 0) in CloneRange(s, 1, 2, 0, 2).fds
  {
    RunTwo(a, b);
    PipeFirst(Step(Empty, a));
    OpenThird(Step(Empty, a));
    FailsAtThird(Step(Step(Empty, a), b), mem);
  }

  /** A release frees an object exactly when it was named by that descriptor alone. */
  lemma FreedIffLastName(s: State, k: Slot, f: FileId)
    requires Inv(s) && f in s.files
    ensures f !in Release(s, k).files <==> Names(s.fds, f) == {k}
  {
    assert FileOk(s, f);
    if k in s.fds {
      assert SlotOk(s, k);
      ReleaseIs(s, k);
      if s.fds[k].file == Some(f) {
        if s.files[f].refs == 1 { LastName(s.fds, k, f); }
      } else {
        assert k !in Names(s.fds, f);
      }
    } else {
      assert k !in Names(s.fds, f);
    }
  }

  /** And it frees a pipe exactly when the object freed was its last end. */
  lemma PipeFreedIffLastEnd(s: State, k: Slot, p: PipeId)
    requires Inv(s) && p in s.pipes
    ensures var r := Release(s, k);
            p !in r.pipes <==> Ends(r.files, p, true) == {} && Ends(r.files, p, false) == {}
  {
    ReleaseKeeps(s, k);
    var r := Release(s, k);
    if p in r.pipes {
      assert PipeOk(r, p);
    } else {
      assert SlotOk(s, k);
      ReleaseIs(s, k);
      var f := s.fds[k].file.value;
      assert PipeOk(s, p) && FileOk(s, f);
      LastPipe(s, f, p);
    }
  }

  // ---- exit ---------------------------------------------------------------------

  lemma {:induction false} ClosedRange(s: State, t: Tid, i: nat, n: nat)
    requires i <= n
    ensures var r := CloseRange(s, t, i, n, false);
            forall k: Slot :: k in r.fds <==> k in s.fds && !(k.task == t && i <= k.fd < n)
    decreases n - i
  {
    if i < n {
      ReleaseFds(s, Slot(t, i));
      ClosedRange(Release(s, Slot(t, i)), t, i + 1, n);
    }
  }

  /** After exit the task names nothing and the others name what they did. */
  lemma ExitClosesAll(s: State, t: Tid)
    requires forall k :: k in s.fds ==> k.fd < MAX_FDS
    ensures Bare(CloseRange(s, t, 0, MAX_FDS, false), t, 0)
    ensures forall k :: k in s.fds && k.task != t ==> k in CloseRange(s, t, 0, MAX_FDS, false).fds
  {
    ClosedRange(s, t, 0, MAX_FDS);
  }

  // ---- what the openers make ----------------------------------------------------

  /** No descriptor owns a private copy: there is nothing whose clone takes memory. */
  ghost predicate Plain(s: State) { forall k :: k in s.fds ==> PlainEntry(s.fds[k]) }

  predicate PlainEntry(e: Entry) { e.file.Some? || !e.copied }

  /** The calls as the kernel has them: a descriptor is opened with a file object, or at
      least without a copy of its own. */
  predicate ByOpener(op: Op) { op.OpOpen? ==> op.file.Some? || !op.copied }

  lemma ClonePlainly(s: State, dst: Slot, src: Slot)
    requires Plain(s)
    ensures Plain(Clone(s, dst, src))
  {
    CloneFds(s, dst, src);
  }

  lemma ReleasePlainly(s: State, k: Slot)
    requires Plain(s)
    ensures Plain(Release(s, k))
  {
    ReleaseFds(s, k);
  }

  lemma ReplacePlainly(s: State, t: Tid, oldfd: nat, newfd: nat, memory: bool, cloexec: bool)
    requires Plain(s)
    ensures Plain(Replace(s, t, oldfd, newfd, memory, cloexec))
  {
    var u := Release(s, Slot(t, newfd));
    ReleasePlainly(s, Slot(t, newfd));
    ClonePlainly(u, Slot(t, newfd), Slot(t, oldfd));
  }

  lemma {:induction false} CloseRangePlainly(s: State, t: Tid, i: nat, n: nat, cloexecOnly: bool)
    requires Plain(s) && i <= n
    ensures Plain(CloseRange(s, t, i, n, cloexecOnly))
    decreases n - i
  {
    if i < n {
      ReleasePlainly(s, Slot(t, i));
      CloseRangePlainly(CloseOne(s, Slot(t, i), cloexecOnly), t, i + 1, n, cloexecOnly);
    }
  }

  lemma {:induction false} CloneRangePlainly(s: State, parent: Tid, child: Tid, i: nat, n: nat)
    requires Plain(s) && i <= n
    ensures Plain(CloneRange(s, parent, child, i, n))
    decreases n - i
  {
    if i < n {
      ClonePlainly(s, Slot(child, i), Slot(parent, i));
      CloneRangePlainly(Clone(s, Slot(child, i), Slot(parent, i)), parent, child, i + 1, n);
    }
  }

  lemma ForkPlainly(s: State, parent: Tid, child: Tid, mem: seq<bool>)
    requires Plain(s) && |mem| == MAX_FDS
    ensures Plain(Fork(s, parent, child, mem))
  {
    var n := FirstFailure(s, parent, 0, mem);
    CloneRangePlainly(s, parent, child, 0, n);
    CloseRangePlainly(CloneRange(s, parent, child, 0, n), child, 0, n, false);
  }

  lemma StepPlainly(s: State, op: Op)
    requires Plain(s) && Allowed(s, op) && ByOpener(op)
    ensures Plain(Step(s, op))
  {
    match op
    case OpPipe(t, p, rf, wf, memory, cloexec) =>
    case OpOpen(t, file, copied, memory, cloexec) =>
    case OpDup(t, oldfd, from, memory, cloexec) =>
      if !BadFd(s, t, oldfd) { ReplacePlainly(s, t, oldfd, LowestFree(s, t, from), memory, cloexec); }
    case OpDup2(t, oldfd, newfd, memory) =>
      if !BadFd(s, t, oldfd) && newfd >= 0 { ReplacePlainly(s, t, oldfd, newfd, memory, false); }
    case OpDup3(t, oldfd, newfd, memory, cloexec) =>
      if !BadFd(s, t, oldfd) && newfd >= 0 { ReplacePlainly(s, t, oldfd, newfd, memory, cloexec); }
    case OpFork(t, child, mem) => ForkPlainly(s, t, child, mem);
    case OpClose(t, fd) => if !BadFd(s, t, fd) { ReleasePlainly(s, Slot(t, fd)); }
    case OpExec(t) => CloseRangePlainly(s, t, 0, MAX_FDS, true);
    case OpExit(t) => CloseRangePlainly(s, t, 0, MAX_FDS, false);
  }

  lemma {:induction false} RunPlainly(s: State, ops: seq<Op>)
    requires Plain(s) && AllAllowed(s, ops) && forall i :: 0 <= i < |ops| ==> ByOpener(ops[i])
    ensures Plain(Run(s, ops))
    decreases |ops|
  {
    if ops != [] {
      StepPlainly(s, ops[0]);
      RunPlainly(Step(s, ops[0]), ops[1..]);
    }
  }

  lemma {:induction false} NoFailure(s: State, parent: Tid, i: nat, mem: seq<bool>)
    requires Plain(s) && |mem| == MAX_FDS && i <= MAX_FDS
    ensures FirstFailure(s, parent, i, mem) == MAX_FDS
    decreases |mem| - i
  {
    if i < MAX_FDS { NoFailure(s, parent, i + 1, mem); }
  }

  /** In this kernel, whatever the allocator says, a fork never fails for a descriptor and
      a dup2 or dup3 that passes its checks leaves both descriptors naming one object: the
      failure branches of the clone are latent. */
  lemma ClonesNeverFail(ops: seq<Op>, t: Tid, mem: seq<bool>, oldfd: nat, newfd: nat, memory: bool, cloexec: bool)
    requires AllAllowed(Empty, ops) && (forall i :: 0 <= i < |ops| ==> ByOpener(ops[i])) && |mem| == MAX_FDS
    ensures FirstFailure(Run(Empty, ops), t, 0, mem) == MAX_FDS
    ensures var s := Run(Empty, ops);
            !BadFd(s, t, oldfd) && newfd < MAX_FDS && oldfd != newfd ==>
              var r2, r3 := Dup2(s, t, oldfd, newfd, memory), Dup3(s, t, oldfd, newfd, memory, cloexec);
              && Slot(t, newfd) in r2.fds && r2.fds[Slot(t, newfd)] == s.fds[Slot(t, oldfd)].(cloexec := false)
              && Slot(t, newfd) in r3.fds && r3.fds[Slot(t, newfd)] == s.fds[Slot(t, oldfd)].(cloexec := cloexec)
  {
    RunPlainly(Empty, ops);
    RunKeeps(Empty, ops);
    var s := Run(Empty, ops);
    NoFailure(s, t, 0, mem);
    if !BadFd(s, t, oldfd) && newfd < MAX_FDS && oldfd != newfd {
      FE.Dup2MakesSame(s, t, oldfd, newfd, memory);
      FE.Dup3MakesSame(s, t, oldfd, newfd, memory, cloexec);
    }
  }
}
