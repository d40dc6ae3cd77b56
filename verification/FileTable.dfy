/** The descriptor tables and shared open-file objects as the system calls change
    them in place. */
module FileTable {
  import opened Prelude
  import opened FdSpec
  import opened FdProps

  /** The fork loop at descriptor `i`: what is left leads where the whole would. */
  ghost predicate Forking(s: State, v: State, parent: Tid, child: Tid, i: nat, memory: seq<bool>)
    requires |memory| == MAX_FDS
  {
    var n := FirstFailure(s, parent, 0, memory);
    && i <= n && Inv(v) && Bare(v, child, i)
    && CloneRange(v, parent, child, i, n) == CloneRange(s, parent, child, 0, n)
    && FirstFailure(s, parent, i, memory) == n
    && (forall j :: (Slot(parent, j) in v.fds <==> Slot(parent, j) in s.fds))
    && (forall j :: Slot(parent, j) in s.fds ==> v.fds[Slot(parent, j)] == s.fds[Slot(parent, j)])
  }

  lemma ForkOne(s: State, v: State, parent: Tid, child: Tid, i: nat, memory: seq<bool>)
    requires |memory| == MAX_FDS && i < MAX_FDS && parent != child && Forking(s, v, parent, child, i, memory)
    ensures CanClone(v, Slot(parent, i), memory[i]) <==> i < FirstFailure(s, parent, 0, memory)
    ensures CanClone(v, Slot(parent, i), memory[i]) ==>
              Forking(s, FdSpec.Clone(v, Slot(child, i), Slot(parent, i)), parent, child, i + 1, memory)
  {
    CloneOne(v, parent, child, i);
    CloneFds(v, Slot(child, i), Slot(parent, i));
  }

  class Files {
    var fds: map<Slot, Entry>
    var files: map<FileId, File>
    var pipes: map<PipeId, Pipe>
    ghost var made: nat
    ghost var gone: nat

    ghost function Abs(): State
      reads this
    {
      State(fds, files, pipes, made, gone, false)
    }

    constructor ()
      ensures Inv(Abs()) && fds == map[] && files == map[] && pipes == map[]
    {
      fds, files, pipes, made, gone := map[], map[], map[], 0, 0;
    }

    /** The last descriptor of this pipe end is gone; free the pipe with its last end. */
    method DropEnd(p: PipeId, readEnd: bool)
      requires p in pipes
      modifies this
      ensures Abs() == FdSpec.DropEnd(old(Abs()), p, readEnd)
    {
      var x := pipes[p];
      x := x.(refs := x.refs - 1);
      if readEnd && x.readers > 0 { x := x.(readers := x.readers - 1); }
      if !readEnd && x.writers > 0 { x := x.(writers := x.writers - 1); }
      if x.refs == 0 {
        pipes := pipes - {p};
        gone := gone + 1;
      } else {
        pipes := pipes[p := x];
      }
    }

    method Put(f: FileId)
      requires f in files && (files[f].pipe.Some? ==> files[f].pipe.value in pipes)
      modifies this
      ensures Abs() == FdSpec.Put(old(Abs()), f)
    {
      var x := files[f];
      x := x.(refs := x.refs - 1);
      if x.refs > 0 {
        files := files[f := x];
      } else {
        if x.pipe.Some? { DropEnd(x.pipe.value, x.readEnd); }
        files := files - {f};
      }
    }

    method Release(k: Slot)
      requires Inv(Abs())
      modifies this
      ensures Abs() == FdSpec.Release(old(Abs()), k) && Inv(Abs())
    {
      ReleaseKeeps(Abs(), k);
      if k in fds {
        assert SlotOk(Abs(), k);
        if fds[k].file.Some? {
          assert FileOk(Abs(), fds[k].file.value);
          Put(fds[k].file.value);
        }
        fds := fds - {k};
      }
    }

    method CloneEntry(dst: Slot, src: Slot, memory: bool) returns (ok: bool)
      requires dst !in fds && (src in fds && fds[src].file.Some? ==> fds[src].file.value in files)
      modifies this
      ensures ok == CanClone(old(Abs()), src, memory)
      ensures Abs() == if ok then FdSpec.Clone(old(Abs()), dst, src) else old(Abs())
    {
      if src !in fds {
        assert fds - {dst} == fds;
        return true;
      }
      var e := fds[src];
      if e.file.Some? {
        var f := e.file.value;
        fds := fds[dst := e];
        files := files[f := files[f].(refs := files[f].refs + 1)];
        return true;
      }
      if e.copied && !memory { return false; }
      fds := fds[dst := e];
      ok := true;
    }

    method Clone(dst: Slot, src: Slot, memory: bool) returns (ok: bool)
      requires Inv(Abs()) && dst !in fds
      modifies this
      ensures ok == CanClone(old(Abs()), src, memory) && Inv(Abs())
      ensures Abs() == if ok then FdSpec.Clone(old(Abs()), dst, src) else old(Abs())
    {
      CloneKeeps(Abs(), dst, src);
      assert src in fds ==> SlotOk(Abs(), src);
      ok := CloneEntry(dst, src, memory);
    }

    method Replace(t: Tid, oldfd: nat, newfd: nat, memory: bool, cloexec: bool) returns (ok: bool)
      requires Inv(Abs()) && oldfd != newfd
      modifies this
      ensures Abs() == FdSpec.Replace(old(Abs()), t, oldfd, newfd, memory, cloexec) && Inv(Abs())
      ensures ok == CanClone(old(Abs()), Slot(t, oldfd), memory)
    {
      ReplaceKeeps(Abs(), t, oldfd, newfd, memory, cloexec);
      ReleaseFds(Abs(), Slot(t, newfd));
      Release(Slot(t, newfd));
      ok := Clone(Slot(t, newfd), Slot(t, oldfd), memory);
      if ok && Slot(t, newfd) in fds {
        fds := fds[Slot(t, newfd) := fds[Slot(t, newfd)].(cloexec := cloexec)];
      }
    }

    /** Returns the new descriptor, or a negative error number. */
    method Dup2(t: Tid, oldfd: int, newfd: int, memory: bool) returns (r: int)
      requires Inv(Abs())
      modifies this
      ensures Abs() == FdSpec.Dup2(old(Abs()), t, oldfd, newfd, memory) && Inv(Abs())
      ensures r == if BadFd(old(Abs()), t, oldfd) || newfd < 0 || newfd >= MAX_FDS then -9
                   else if oldfd == newfd || CanClone(old(Abs()), Slot(t, oldfd), memory) then newfd else -24
    {
      if oldfd < 0 || oldfd >= MAX_FDS || Slot(t, oldfd) !in fds { return -9; }
      if newfd < 0 || newfd >= MAX_FDS { return -9; }
      if oldfd == newfd { return newfd; }
      var ok := Replace(t, oldfd, newfd, memory, false);
      r := if ok then newfd else -24;
    }

    method LowestFree(t: Tid, from: nat) returns (n: nat)
      ensures n == FdSpec.LowestFree(Abs(), t, from)
    {
      n := from;
      while n < MAX_FDS && Slot(t, n) in fds
        invariant FdSpec.LowestFree(Abs(), t, n) == FdSpec.LowestFree(Abs(), t, from)
        decreases MAX_FDS - n
      {
        n := n + 1;
      }
    }

    method Dup(t: Tid, oldfd: int, from: nat, memory: bool, cloexec: bool) returns (r: int)
      requires Inv(Abs())
      modifies this
      ensures Abs() == FdSpec.Dup(old(Abs()), t, oldfd, from, memory, cloexec) && Inv(Abs())
      ensures var n := FdSpec.LowestFree(old(Abs()), t, from);
              r == if BadFd(old(Abs()), t, oldfd) then -9
                   else if n < MAX_FDS && CanClone(old(Abs()), Slot(t, oldfd), memory) then n else -24
    {
      if oldfd < 0 || oldfd >= MAX_FDS || Slot(t, oldfd) !in fds { return -9; }
      var n := LowestFree(t, from);
      if n >= MAX_FDS { return -24; }
      var ok := Replace(t, oldfd, n, memory, cloexec);
      r := if ok then n else -24;
    }

    method MakePipe(t: Tid, p: PipeId, rf: FileId, wf: FileId, memory: bool, cloexec: bool)
      returns (r: int, rd: nat, wr: nat)
      requires Inv(Abs()) && Fresh(Abs(), p, rf, wf)
      modifies this
      ensures Abs() == FdSpec.MakePipe(old(Abs()), t, p, rf, wf, memory, cloexec) && Inv(Abs())
      ensures rd == FdSpec.LowestFree(old(Abs()), t, 0) && wr == FdSpec.LowestFree(old(Abs()), t, rd + 1)
      ensures r == if rd >= MAX_FDS || wr >= MAX_FDS then -24 else if !memory then -12 else 0
      ensures r == 0 ==> rd < wr && Slot(t, rd) !in old(fds) && Slot(t, wr) !in old(fds)
      ensures r == 0 ==> Slot(t, rd) in fds && Slot(t, wr) in fds
      ensures r != 0 ==> Abs() == old(Abs())
    {
      MakePipeKeeps(Abs(), t, p, rf, wf, memory, cloexec);
      rd := LowestFree(t, 0);
      wr := LowestFree(t, rd + 1);
      if rd >= MAX_FDS || wr >= MAX_FDS { return -24, rd, wr; }
      if !memory { return -12, rd, wr; }
      pipes := pipes[p := Pipe(2, 1, 1)];
      files := files[rf := File(1, Some(p), true)][wf := File(1, Some(p), false)];
      fds := fds[Slot(t, rd) := Entry(Some(rf), false, cloexec)][Slot(t, wr) := Entry(Some(wf), false, cloexec)];
      made := made + 1;
      r := 0;
    }

    /** Opens something that is not a pipe: every opener gives the descriptor a file object
        of its own. */
    method Open(t: Tid, f: FileId, memory: bool, cloexec: bool) returns (r: int)
      requires Inv(Abs()) && f !in files
      modifies this
      ensures Abs() == FdSpec.Open(old(Abs()), t, Some(f), false, memory, cloexec) && Inv(Abs())
      ensures var n := FdSpec.LowestFree(old(Abs()), t, 0);
              r == if n >= MAX_FDS then -24 else if !memory then -12 else n
      ensures r >= 0 ==> Slot(t, r) !in old(fds) && Slot(t, r) in fds
      ensures r < 0 ==> Abs() == old(Abs())
    {
      OpenKeeps(Abs(), t, Some(f), false, memory, cloexec);
      var n := LowestFree(t, 0);
      if n >= MAX_FDS { return -24; }
      if !memory { return -12; }
      files := files[f := File(1, None, false)];
      fds := fds[Slot(t, n) := Entry(Some(f), false, cloexec)];
      r := n;
    }

    /** Exit closes all descriptors; exec only those marked. */
    method CloseRange(t: Tid, n: nat, cloexecOnly: bool)
      requires Inv(Abs())
      modifies this
      ensures Abs() == FdSpec.CloseRange(old(Abs()), t, 0, n, cloexecOnly) && Inv(Abs())
    {
      var i := 0;
      while i < n
        invariant i <= n && Inv(Abs())
        invariant FdSpec.CloseRange(Abs(), t, i, n, cloexecOnly) == FdSpec.CloseRange(old(Abs()), t, 0, n, cloexecOnly)
      {
        var k := Slot(t, i);
        if !cloexecOnly || (k in fds && fds[k].cloexec) { Release(k); }
        i := i + 1;
      }
    }

    method CloneNext(ghost s: State, parent: Tid, child: Tid, i: nat, memory: seq<bool>) returns (ok: bool)
      requires parent != child && |memory| == MAX_FDS && i < MAX_FDS && Forking(s, Abs(), parent, child, i, memory)
      modifies this
      ensures ok ==> Forking(s, Abs(), parent, child, i + 1, memory)
      ensures !ok ==> Abs() == old(Abs()) && i == FirstFailure(s, parent, 0, memory)
    {
      ForkOne(s, Abs(), parent, child, i, memory);
      assert Slot(child, i) !in fds;
      ok := Clone(Slot(child, i), Slot(parent, i), memory[i]);
    }

    /** Clone descriptors until one fails; returns its number. */
    method CloneAll(parent: Tid, child: Tid, memory: seq<bool>) returns (i: nat)
      requires Inv(Abs()) && Bare(Abs(), child, 0) && parent != child && |memory| == MAX_FDS
      modifies this
      ensures i == FirstFailure(old(Abs()), parent, 0, memory)
      ensures Abs() == CloneRange(old(Abs()), parent, child, 0, i) && Inv(Abs())
    {
      ghost var s := Abs();
      i := 0;
      while i < MAX_FDS
        invariant i <= MAX_FDS && Forking(s, Abs(), parent, child, i, memory)
      {
        var ok := CloneNext(s, parent, child, i, memory);
        if !ok { return; }
        i := i + 1;
      }
    }

    /** Clone the whole table for a child, undoing the clones made when one fails. */
    method Fork(parent: Tid, child: Tid, memory: seq<bool>) returns (ok: bool)
      requires Inv(Abs()) && Bare(Abs(), child, 0) && parent != child && |memory| == MAX_FDS
      modifies this
      ensures Abs() == FdSpec.Fork(old(Abs()), parent, child, memory) && Inv(Abs())
      ensures ok <==> FirstFailure(old(Abs()), parent, 0, memory) == MAX_FDS
      ensures !ok ==> Abs() == old(Abs())
    {
      ghost var s := Abs();
      var i := CloneAll(parent, child, memory);
      ok := i == MAX_FDS;
      if !ok {
        CloseRange(child, i, false);
        ForkRollsBack(s, parent, child, memory);
      }
    }
  }
}
