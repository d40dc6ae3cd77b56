/** Descriptors, the open-file objects they share, and the pipes behind them. */
module FdSpec {
  import opened Prelude

  type Tid = nat
  type FileId = nat
  type PipeId = nat

  const MAX_FDS: nat := 256

  datatype Slot = Slot(task: Tid, fd: nat)

  /** An in-use descriptor. Without a file object it may own a private copy of its
      data (`copied`), which takes memory to duplicate. */
  datatype Entry = Entry(file: Option<FileId>, copied: bool, cloexec: bool)

  datatype File = File(refs: int, pipe: Option<PipeId>, readEnd: bool)
  datatype Pipe = Pipe(refs: int, readers: nat, writers: nat)

  /** `made` and `gone` count the pipes created and freed; `bad` records the use of
      a freed object. */
  datatype State = State(
    fds: map<Slot, Entry>, files: map<FileId, File>, pipes: map<PipeId, Pipe>, made: nat, gone: nat, bad: bool)

  // ---- file objects -------------------------------------------------------------

  function Get(s: State, f: FileId): State {
    if f !in s.files then s.(bad := true)
    else s.(files := s.files[f := s.files[f].(refs := s.files[f].refs + 1)])
  }

  /** The last descriptor of a pipe end is gone. */
  function DropEnd(s: State, p: PipeId, readEnd: bool): State {
    if p !in s.pipes then s.(bad := true)
    else
      var x := s.pipes[p];
      var y := Pipe(x.refs - 1,
                    if readEnd && x.readers > 0 then x.readers - 1 else x.readers,
                    if !readEnd && x.writers > 0 then x.writers - 1 else x.writers);
      if y.refs == 0 then s.(pipes := s.pipes - {p}, gone := s.gone + 1) else s.(pipes := s.pipes[p := y])
  }

  function Put(s: State, f: FileId): State {
    if f !in s.files then s.(bad := true)
    else
      var x := s.files[f];
      if x.refs - 1 > 0 then s.(files := s.files[f := x.(refs := x.refs - 1)])
      else
        var u := if x.pipe.Some? then DropEnd(s, x.pipe.value, x.readEnd) else s;
        u.(files := u.files - {f})
  }

  // ---- descriptors --------------------------------------------------------------

  function Release(s: State, k: Slot): State {
    if k !in s.fds then s
    else
      var u := if s.fds[k].file.Some? then Put(s, s.fds[k].file.value) else s;
      u.(fds := u.fds - {k})
  }

  /** Does cloning this descriptor succeed, given what the allocator says? */
  predicate CanClone(s: State, src: Slot, memory: bool) {
    src in s.fds && s.fds[src].file.None? && s.fds[src].copied ==> memory
  }

  function Clone(s: State, dst: Slot, src: Slot): State {
    if src !in s.fds then s.(fds := s.fds - {dst})
    else
      var u := s.(fds := s.fds[dst := s.fds[src]]);
      if s.fds[src].file.Some? then Get(u, s.fds[src].file.value) else u
  }

  function SetCloexec(s: State, k: Slot, on: bool): State {
    if k in s.fds then s.(fds := s.fds[k := s.fds[k].(cloexec := on)]) else s
  }

  predicate BadFd(s: State, t: Tid, fd: int) { fd < 0 || fd >= MAX_FDS || Slot(t, fd) !in s.fds }

  /** dup2, dup3 and fcntl's duplication end here: replace `newfd` by a clone. */
  function Replace(s: State, t: Tid, oldfd: nat, newfd: nat, memory: bool, cloexec: bool): State {
    var u := Release(s, Slot(t, newfd));
    if CanClone(u, Slot(t, oldfd), memory)
    then SetCloexec(Clone(u, Slot(t, newfd), Slot(t, oldfd)), Slot(t, newfd), cloexec)
    else u
  }

  function Dup2(s: State, t: Tid, oldfd: int, newfd: int, memory: bool): State {
    if BadFd(s, t, oldfd) || newfd < 0 || newfd >= MAX_FDS || oldfd == newfd then s
    else Replace(s, t, oldfd, newfd, memory, false)
  }

  function Dup3(s: State, t: Tid, oldfd: int, newfd: int, memory: bool, cloexec: bool): State {
    if BadFd(s, t, oldfd) || newfd < 0 || newfd >= MAX_FDS || oldfd == newfd then s
    else Replace(s, t, oldfd, newfd, memory, cloexec)
  }

  /** The lowest free descriptor of `t` from `from` on; MAX_FDS when there is none. */
  function LowestFree(s: State, t: Tid, from: nat): (r: nat)
    ensures r <= MAX_FDS || r == from
    ensures from <= MAX_FDS ==> from <= r && forall i :: from <= i < r ==> Slot(t, i) in s.fds
    ensures r < MAX_FDS ==> Slot(t, r) !in s.fds
    decreases MAX_FDS - from, t
  {
    if from >= MAX_FDS || Slot(t, from) !in s.fds then from else LowestFree(s, t, from + 1)
  }

  function Dup(s: State, t: Tid, oldfd: int, from: nat, memory: bool, cloexec: bool): State {
    if BadFd(s, t, oldfd) then s
    else
      var n := LowestFree(s, t, from);
      if n >= MAX_FDS then s else Replace(s, t, oldfd, n, memory, cloexec)
  }

  /** A pipe with two new file objects `rf` and `wf`, at addresses not in use. */
  function MakePipe(s: State, t: Tid, p: PipeId, rf: FileId, wf: FileId, memory: bool, cloexec: bool): State {
    var a := LowestFree(s, t, 0);
    var b := LowestFree(s, t, a + 1);
    if a >= MAX_FDS || b >= MAX_FDS || !memory then s
    else
      s.(fds := s.fds[Slot(t, a) := Entry(Some(rf), false, cloexec)][Slot(t, b) := Entry(Some(wf), false, cloexec)],
         files := s.files[rf := File(1, Some(p), true)][wf := File(1, Some(p), false)],
         pipes := s.pipes[p := Pipe(2, 1, 1)],
         made := s.made + 1)
  }

  /** A descriptor, at the lowest free number, for something that is not a pipe: with a new
      file object, or without one and then perhaps with a private copy of its data. The
      clone code provides for the second kind; every opener makes the first. */
  function Open(s: State, t: Tid, file: Option<FileId>, copied: bool, memory: bool, cloexec: bool): State {
    var a := LowestFree(s, t, 0);
    if a >= MAX_FDS || !memory then s
    else
      s.(fds := s.fds[Slot(t, a) := Entry(file, copied, cloexec)],
         files := if file.Some? then s.files[file.value := File(1, None, false)] else s.files)
  }

  function Close(s: State, t: Tid, fd: int): State {
    if BadFd(s, t, fd) then s else Release(s, Slot(t, fd))
  }

  /** Close the descriptors of `t` from `i` to `n`, or only those marked close-on-exec. */
  function CloseRange(s: State, t: Tid, i: nat, n: nat, cloexecOnly: bool): State
    requires i <= n
    decreases n - i, t
  {
    if i == n then s else CloseRange(CloseOne(s, Slot(t, i), cloexecOnly), t, i + 1, n, cloexecOnly)
  }

  function CloseOne(s: State, k: Slot, cloexecOnly: bool): State {
    if cloexecOnly && !(k in s.fds && s.fds[k].cloexec) then s else Release(s, k)
  }

  /** The child's descriptors from `i` to `n` cloned from the parent's. */
  function CloneRange(s: State, parent: Tid, child: Tid, i: nat, n: nat): State
    requires i <= n
    decreases n - i, child
  {
    if i == n then s else CloneRange(Clone(s, Slot(child, i), Slot(parent, i)), parent, child, i + 1, n)
  }

  /** The first descriptor from `i` on whose clone fails; MAX_FDS when all succeed. */
  function FirstFailure(s: State, parent: Tid, i: nat, memory: seq<bool>): (r: nat)
    requires |memory| == MAX_FDS && i <= MAX_FDS
    ensures i <= r <= MAX_FDS && forall j :: i <= j < r ==> CanClone(s, Slot(parent, j), memory[j])
    ensures r < MAX_FDS ==> !CanClone(s, Slot(parent, r), memory[r])
    decreases |memory| - i
  {
    if i == MAX_FDS || !CanClone(s, Slot(parent, i), memory[i]) then i else FirstFailure(s, parent, i + 1, memory)
  }

  /** Clone every descriptor, or undo the clones made when one fails. */
  function Fork(s: State, parent: Tid, child: Tid, memory: seq<bool>): State
    requires |memory| == MAX_FDS
  {
    var n := FirstFailure(s, parent, 0, memory);
    var u := CloneRange(s, parent, child, 0, n);
    if n == MAX_FDS then u else CloseRange(u, child, 0, n, false)
  }
}
