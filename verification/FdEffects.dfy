/** What each descriptor call does to the table it works on, and to no other. */
module FdEffects {
  import opened Prelude
  import opened FdSpec
  import opened FdProps

  /** Every descriptor but `k` is as it was. */
  ghost predicate OnlyAt(s: State, r: State, k: Slot) {
    forall x :: x != k ==> (x in r.fds <==> x in s.fds) && (x in s.fds ==> r.fds[x] == s.fds[x])
  }

  lemma CloneNames(s: State, dst: Slot, src: Slot, cloexec: bool)
    requires src in s.fds
    ensures SetCloexec(Clone(s, dst, src), dst, cloexec).fds == s.fds[dst := s.fds[src].(cloexec := cloexec)]
  {
    CloneFds(s, dst, src);
  }

  /** dup2, dup3 and fcntl leave the two descriptors naming one object, whatever the
      second named before. When the copy needs memory that is not there, the second is
      closed all the same. */
  lemma ReplaceNames(s: State, t: Tid, oldfd: nat, newfd: nat, memory: bool, cloexec: bool)
    requires Slot(t, oldfd) in s.fds && oldfd != newfd
    ensures var r := Replace(s, t, oldfd, newfd, memory, cloexec);
            && OnlyAt(s, r, Slot(t, newfd))
            && (Slot(t, newfd) in r.fds <==> CanClone(s, Slot(t, oldfd), memory))
            && (Slot(t, newfd) in r.fds ==> r.fds[Slot(t, newfd)] == s.fds[Slot(t, oldfd)].(cloexec := cloexec))
  {
    var u := Release(s, Slot(t, newfd));
    ReleaseFds(s, Slot(t, newfd));
    CloneNames(u, Slot(t, newfd), Slot(t, oldfd), cloexec);
  }

  /** The object named by `oldfd` is named by one more descriptor, and its count says so. */
  lemma DupShares(s: State, t: Tid, oldfd: nat, newfd: nat, memory: bool, cloexec: bool, f: FileId)
    requires Inv(s) && Slot(t, oldfd) in s.fds && s.fds[Slot(t, oldfd)].file == Some(f)
    requires oldfd != newfd
    ensures var r := Replace(s, t, oldfd, newfd, memory, cloexec);
            && Names(r.fds, f) == Names(s.fds, f) + {Slot(t, newfd)}
            && f in r.files && r.files[f].refs == |Names(s.fds, f) + {Slot(t, newfd)}|
  {
    var r := Replace(s, t, oldfd, newfd, memory, cloexec);
    ReplaceNames(s, t, oldfd, newfd, memory, cloexec);
    ReplaceKeeps(s, t, oldfd, newfd, memory, cloexec);
    assert SlotOk(r, Slot(t, oldfd));
    assert FileOk(r, f);
    assert Names(r.fds, f) == Names(s.fds, f) + {Slot(t, newfd)};
  }

  /** The object the entry names, if any, is named by `k` too, and its count says so. */
  ghost predicate NamedToo(s: State, r: State, e: Entry, k: Slot) {
    e.file.Some? ==>
      && Names(r.fds, e.file.value) == Names(s.fds, e.file.value) + {k}
      && e.file.value in r.files && r.files[e.file.value].refs == |Names(r.fds, e.file.value)|
  }

  /** `r` is `s` after `newfd` was made to name what `oldfd` names; or, where the clone fails,
      after `newfd` was closed. */
  ghost predicate MadeSame(s: State, r: State, t: Tid, oldfd: nat, newfd: nat, memory: bool, cloexec: bool) {
    var src, dst := Slot(t, oldfd), Slot(t, newfd);
    && OnlyAt(s, r, dst) && src in s.fds
    && if memory || s.fds[src].file.Some? || !s.fds[src].copied
       then dst in r.fds && r.fds[dst] == s.fds[src].(cloexec := cloexec) && NamedToo(s, r, s.fds[src], dst)
       else dst !in r.fds
  }

  lemma ReplaceMakesSame(s: State, t: Tid, oldfd: nat, newfd: nat, memory: bool, cloexec: bool)
    requires Inv(s) && Slot(t, oldfd) in s.fds && oldfd != newfd
    ensures MadeSame(s, Replace(s, t, oldfd, newfd, memory, cloexec), t, oldfd, newfd, memory, cloexec)
  {
    ReplaceNames(s, t, oldfd, newfd, memory, cloexec);
    var e := s.fds[Slot(t, oldfd)];
    if e.file.Some? { DupShares(s, t, oldfd, newfd, memory, cloexec, e.file.value); }
  }

  /** dup2 of a good descriptor onto another number: the second names what the first names,
      without close-on-exec, whatever it named before. Onto itself, or with a bad number,
      nothing changes. */
  lemma Dup2MakesSame(s: State, t: Tid, oldfd: int, newfd: int, memory: bool)
    requires Inv(s)
    ensures var r := Dup2(s, t, oldfd, newfd, memory);
            if oldfd < 0 || oldfd >= MAX_FDS || Slot(t, oldfd) !in s.fds then r == s
            else if newfd < 0 || newfd >= MAX_FDS || oldfd == newfd then r == s
            else MadeSame(s, r, t, oldfd, newfd, memory, false)
  {
    if !BadFd(s, t, oldfd) && 0 <= newfd && oldfd != newfd { ReplaceMakesSame(s, t, oldfd, newfd, memory, false); }
  }

  /** dup3, the same with the mark asked for. */
  lemma Dup3MakesSame(s: State, t: Tid, oldfd: int, newfd: int, memory: bool, cloexec: bool)
    requires Inv(s)
    ensures var r := Dup3(s, t, oldfd, newfd, memory, cloexec);
            if oldfd < 0 || oldfd >= MAX_FDS || Slot(t, oldfd) !in s.fds then r == s
            else if newfd < 0 || newfd >= MAX_FDS || oldfd == newfd then r == s
            else MadeSame(s, r, t, oldfd, newfd, memory, cloexec)
  {
    if !BadFd(s, t, oldfd) && 0 <= newfd && oldfd != newfd { ReplaceMakesSame(s, t, oldfd, newfd, memory, cloexec); }
  }

  /** dup and fcntl change nothing for a bad descriptor or a full table. */
  lemma DupRefused(s: State, t: Tid, oldfd: int, from: nat, memory: bool, cloexec: bool)
    requires BadFd(s, t, oldfd) || forall i :: from <= i < MAX_FDS ==> Slot(t, i) in s.fds
    ensures Dup(s, t, oldfd, from, memory, cloexec) == s
  {
  }

  /** dup and fcntl take the lowest free descriptor from the one asked for. */
  lemma DupTakesLowest(s: State, t: Tid, oldfd: int, from: nat, memory: bool, cloexec: bool, n: nat)
    requires !BadFd(s, t, oldfd) && CanClone(s, Slot(t, oldfd), memory)
    requires from <= n < MAX_FDS && Slot(t, n) !in s.fds && forall i :: from <= i < n ==> Slot(t, i) in s.fds
    ensures var r := Dup(s, t, oldfd, from, memory, cloexec);
            && OnlyAt(s, r, Slot(t, n))
            && Slot(t, n) in r.fds && r.fds[Slot(t, n)] == s.fds[Slot(t, oldfd)].(cloexec := cloexec)
  {
    assert LowestFree(s, t, from) == n;
    ReplaceNames(s, t, oldfd, n, memory, cloexec);
  }

  /** Closing a fresh duplicate takes back everything the duplication did. */
  lemma CloseUndoesDup(s: State, t: Tid, oldfd: nat, newfd: nat, memory: bool, cloexec: bool)
    requires Inv(s) && Slot(t, oldfd) in s.fds && Slot(t, newfd) !in s.fds && CanClone(s, Slot(t, oldfd), memory)
    ensures var r := Release(Replace(s, t, oldfd, newfd, memory, cloexec), Slot(t, newfd));
            r.fds == s.fds && r.files == s.files && r.pipes == s.pipes && r.made == s.made && r.gone == s.gone && !r.bad
  {
    var src, dst := Slot(t, oldfd), Slot(t, newfd);
    assert SlotOk(s, src);
    CloneNames(s, dst, src, cloexec);
    var d := Replace(s, t, oldfd, newfd, memory, cloexec);
    assert Release(s, dst) == s;
    ReleaseFds(d, dst);
    assert s.fds[dst := s.fds[src].(cloexec := cloexec)] - {dst} == s.fds;
    if s.fds[src].file.Some? {
      var f := s.fds[src].file.value;
      assert FileOk(s, f);
      assert d.files == s.files[f := s.files[f].(refs := s.files[f].refs + 1)];
      assert d.files[f := d.files[f].(refs := s.files[f].refs)] == s.files;
    }
  }

  // ---- pipes --------------------------------------------------------------------

  /** The two lowest free descriptors. */
  ghost predicate LowestTwo(s: State, t: Tid, a: nat, b: nat) {
    && a < b < MAX_FDS && Slot(t, a) !in s.fds && Slot(t, b) !in s.fds
    && forall i :: 0 <= i < b && i != a ==> Slot(t, i) in s.fds
  }

  lemma MakePipeIs(s: State, t: Tid, p: PipeId, rf: FileId, wf: FileId, cloexec: bool, a: nat, b: nat)
    requires LowestTwo(s, t, a, b)
    ensures MakePipe(s, t, p, rf, wf, true, cloexec) == WithPipe(s, Slot(t, a), Slot(t, b), p, rf, wf, cloexec)
  {
    assert LowestFree(s, t, 0) == a;
    assert LowestFree(s, t, a + 1) == b;
  }

  lemma WithPipeEnds(s: State, x: Slot, y: Slot, p: PipeId, rf: FileId, wf: FileId, cloexec: bool)
    requires Fresh(s, p, rf, wf) && x != y && x !in s.fds && y !in s.fds
    requires Names(s.fds, rf) == {} && Names(s.fds, wf) == {} && forall e :: Ends(s.files, p, e) == {}
    ensures var r := WithPipe(s, x, y, p, rf, wf, cloexec);
            && Names(r.fds, rf) == {x} && Names(r.fds, wf) == {y}
            && Ends(r.files, p, true) == {rf} && Ends(r.files, p, false) == {wf}
            && (forall k :: k in s.fds ==> k in r.fds && r.fds[k] == s.fds[k])
  {
    var r := WithPipe(s, x, y, p, rf, wf, cloexec);
    forall k | k in s.fds ensures s.fds[k].file != Some(rf) && s.fds[k].file != Some(wf) {
      assert k !in Names(s.fds, rf) && k !in Names(s.fds, wf);
    }
    forall f | f in s.files ensures s.files[f].pipe != Some(p) { assert f !in Ends(s.files, p, s.files[f].readEnd); }
  }

  /** A new pipe's descriptors are the two lowest free ones, the read end first; they
      name the two ends of one pipe, which nobody else names. */
  lemma PipeEnds(s: State, t: Tid, p: PipeId, rf: FileId, wf: FileId, cloexec: bool, a: nat, b: nat)
    requires Inv(s) && Fresh(s, p, rf, wf) && LowestTwo(s, t, a, b)
    ensures var r := MakePipe(s, t, p, rf, wf, true, cloexec);
            && Names(r.fds, rf) == {Slot(t, a)} && Names(r.fds, wf) == {Slot(t, b)}
            && Ends(r.files, p, true) == {rf} && Ends(r.files, p, false) == {wf}
            && (forall k :: k in s.fds ==> k in r.fds && r.fds[k] == s.fds[k])
  {
    MakePipeIs(s, t, p, rf, wf, cloexec, a, b);
    UnnamedFile(s, rf);
    UnnamedFile(s, wf);
    UnnamedEnds(s, p);
    WithPipeEnds(s, Slot(t, a), Slot(t, b), p, rf, wf, cloexec);
  }

  /** Without two free descriptors, or without memory, a pipe is not made. */
  lemma PipeRefused(s: State, t: Tid, p: PipeId, rf: FileId, wf: FileId, memory: bool, cloexec: bool)
    requires !memory || forall a, b :: !LowestTwo(s, t, a, b)
    ensures MakePipe(s, t, p, rf, wf, memory, cloexec) == s
  {
    var a := LowestFree(s, t, 0);
    if a < MAX_FDS && LowestFree(s, t, a + 1) < MAX_FDS && memory {
      assert LowestTwo(s, t, a, LowestFree(s, t, a + 1));
    }
  }

  // ---- open and close -----------------------------------------------------------

  /** A new descriptor at the lowest free number names a new object that nobody else names;
      without memory or a free number nothing changes. */
  lemma OpenNames(s: State, t: Tid, f: FileId, memory: bool, cloexec: bool)
    requires Inv(s) && f !in s.files
    ensures var r := Open(s, t, Some(f), false, memory, cloexec);
            var n := LowestFree(s, t, 0);
            if n >= MAX_FDS || !memory then r == s
            else
              && OnlyAt(s, r, Slot(t, n)) && Slot(t, n) !in s.fds && Slot(t, n) in r.fds
              && r.fds[Slot(t, n)] == Entry(Some(f), false, cloexec) && Names(r.fds, f) == {Slot(t, n)}
              && r.files == s.files[f := File(1, None, false)] && r.pipes == s.pipes && r.bad == s.bad
  {
    UnnamedFile(s, f);
    var r := Open(s, t, Some(f), false, memory, cloexec);
    var n := LowestFree(s, t, 0);
    if n < MAX_FDS && memory {
      forall k ensures k in Names(r.fds, f) <==> k == Slot(t, n) { assert k !in Names(s.fds, f); }
    }
  }

  /** close gives up exactly the descriptor it is given. */
  lemma CloseEffect(s: State, t: Tid, fd: int)
    ensures var r := Close(s, t, fd);
            if fd < 0 || fd >= MAX_FDS || Slot(t, fd) !in s.fds then r == s else r.fds == s.fds - {Slot(t, fd)}
  {
    if !BadFd(s, t, fd) { ReleaseFds(s, Slot(t, fd)); }
  }

  // ---- exec ---------------------------------------------------------------------

  ghost predicate Closes(s: State, k: Slot, t: Tid, i: nat, n: nat) {
    k in s.fds && s.fds[k].cloexec && k.task == t && i <= k.fd < n
  }

  lemma {:induction false} MarkedRange(s: State, t: Tid, i: nat, n: nat, k: Slot)
    requires i <= n
    ensures var r := CloseRange(s, t, i, n, true);
            && (k in r.fds <==> k in s.fds && !Closes(s, k, t, i, n))
            && (k in r.fds ==> r.fds[k] == s.fds[k])
    decreases n - i
  {
    if i < n {
      ReleaseFds(s, Slot(t, i));
      MarkedRange(CloseOne(s, Slot(t, i), true), t, i + 1, n, k);
    }
  }

  /** exec closes exactly the caller's descriptors marked close-on-exec. */
  lemma ExecClosesMarked(s: State, t: Tid, k: Slot)
    requires k in s.fds && k.fd < MAX_FDS
    ensures var r := CloseRange(s, t, 0, MAX_FDS, true);
            && (k in r.fds <==> k.task != t || !s.fds[k].cloexec)
            && (k in r.fds ==> r.fds[k] == s.fds[k])
  {
    MarkedRange(s, t, 0, MAX_FDS, k);
  }
}
