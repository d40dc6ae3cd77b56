/** Reference counts of file objects and pipes are exact, over every history. */
module FdProps {
  import opened Prelude
  import opened FdSpec

  // ---- the invariant ------------------------------------------------------------

  /** The descriptors, of all tasks, that name the object `f`. */
  ghost function Names(fds: map<Slot, Entry>, f: FileId): set<Slot> {
    set k | k in fds && fds[k].file == Some(f)
  }

  /** The live objects of one end of the pipe `p`. */
  ghost function Ends(files: map<FileId, File>, p: PipeId, readEnd: bool): set<FileId> {
    set f | f in files && files[f].pipe == Some(p) && files[f].readEnd == readEnd
  }

  /** A file object counts exactly the descriptors that name it, in all tasks. */
  ghost predicate FileOk(s: State, f: FileId)
    requires f in s.files
  {
    && s.files[f].refs == |Names(s.fds, f)| > 0
    && (s.files[f].pipe.Some? ==> s.files[f].pipe.value in s.pipes)
  }

  /** A pipe counts its live end objects, per end and together. */
  ghost predicate PipeOk(s: State, p: PipeId)
    requires p in s.pipes
  {
    var x := s.pipes[p];
    && x.readers == |Ends(s.files, p, true)| && x.writers == |Ends(s.files, p, false)|
    && x.refs == x.readers + x.writers && x.refs > 0
  }

  ghost predicate SlotOk(s: State, k: Slot)
    requires k in s.fds
  {
    s.fds[k].file.Some? ==> s.fds[k].file.value in s.files
  }

  ghost predicate Inv(s: State) {
    && !s.bad && s.made == s.gone + |s.pipes|
    && (forall k {:trigger SlotOk(s, k)} :: k in s.fds ==> SlotOk(s, k))
    && (forall f {:trigger FileOk(s, f)} :: f in s.files ==> FileOk(s, f))
    && (forall p {:trigger PipeOk(s, p)} :: p in s.pipes ==> PipeOk(s, p))
  }

  // ---- cardinalities ------------------------------------------------------------

  lemma NamesDrop(fds: map<Slot, Entry>, k: Slot, f: FileId)
    requires k in fds
    ensures |Names(fds - {k}, f)| == |Names(fds, f)| - (if fds[k].file == Some(f) then 1 else 0)
  {
    assert Names(fds - {k}, f) == Names(fds, f) - {k};
  }

  lemma NamesAdd(fds: map<Slot, Entry>, k: Slot, e: Entry, f: FileId)
    requires k !in fds
    ensures |Names(fds[k := e], f)| == |Names(fds, f)| + (if e.file == Some(f) then 1 else 0)
  {
    assert fds[k := e] - {k} == fds;
    NamesDrop(fds[k := e], k, f);
  }

  lemma EndsSame(a: map<FileId, File>, b: map<FileId, File>, p: PipeId, e: bool)
    requires b.Keys == a.Keys && forall f :: f in a ==> b[f].pipe == a[f].pipe && b[f].readEnd == a[f].readEnd
    ensures Ends(b, p, e) == Ends(a, p, e)
  {
  }

  lemma EndsDrop(a: map<FileId, File>, f: FileId, p: PipeId, e: bool)
    requires f in a
    ensures |Ends(a - {f}, p, e)| == |Ends(a, p, e)| - (if a[f].pipe == Some(p) && a[f].readEnd == e then 1 else 0)
  {
    assert Ends(a - {f}, p, e) == Ends(a, p, e) - {f};
  }

  lemma EndsAdd(a: map<FileId, File>, f: FileId, x: File, p: PipeId, e: bool)
    requires f !in a
    ensures |Ends(a[f := x], p, e)| == |Ends(a, p, e)| + (if x.pipe == Some(p) && x.readEnd == e then 1 else 0)
  {
    assert a[f := x] - {f} == a;
    EndsDrop(a[f := x], f, p, e);
  }

  /** Changing counts and descriptors leaves the pipes' books alone. */
  lemma SamePipes(s: State, r: State)
    requires forall p :: p in s.pipes ==> PipeOk(s, p)
    requires r.pipes == s.pipes && r.files.Keys == s.files.Keys
    requires forall f :: f in s.files ==> r.files[f].pipe == s.files[f].pipe && r.files[f].readEnd == s.files[f].readEnd
    ensures forall p :: p in r.pipes ==> PipeOk(r, p)
  {
    forall p | p in r.pipes ensures PipeOk(r, p) {
      assert PipeOk(s, p);
      EndsSame(s.files, r.files, p, true);
      EndsSame(s.files, r.files, p, false);
    }
  }

  // ---- releasing ----------------------------------------------------------------

  /** Releasing a descriptor whose object has others only lowers its count. */
  lemma ReleaseShared(s: State, k: Slot, f: FileId)
    requires Inv(s) && k in s.fds && s.fds[k].file == Some(f) && f in s.files && s.files[f].refs > 1
    ensures Inv(s.(fds := s.fds - {k}, files := s.files[f := s.files[f].(refs := s.files[f].refs - 1)]))
  {
    var r := s.(fds := s.fds - {k}, files := s.files[f := s.files[f].(refs := s.files[f].refs - 1)]);
    forall g | g in r.files ensures FileOk(r, g) { assert FileOk(s, g); NamesDrop(s.fds, k, g); }
    forall j | j in r.fds ensures SlotOk(r, j) { assert SlotOk(s, j); }
    SamePipes(s, r);
  }

  lemma ReleasePlain(s: State, k: Slot)
    requires Inv(s) && k in s.fds && s.fds[k].file.None?
    ensures Inv(s.(fds := s.fds - {k}))
  {
    var r := s.(fds := s.fds - {k});
    forall g | g in r.files ensures FileOk(r, g) { assert FileOk(s, g); NamesDrop(s.fds, k, g); }
    forall j | j in r.fds ensures SlotOk(r, j) { assert SlotOk(s, j); }
    SamePipes(s, r);
  }

  /** The last descriptor of an object is named by nobody else. */
  lemma LastName(fds: map<Slot, Entry>, k: Slot, f: FileId)
    requires k in fds && fds[k].file == Some(f) && |Names(fds, f)| == 1
    ensures Names(fds, f) == {k}
  {
    var n := Names(fds, f);
    assert k in n && |n - {k}| == 0;
    assert n == (n - {k}) + {k};
  }

  ghost predicate Last(s: State, k: Slot, f: FileId) {
    k in s.fds && s.fds[k].file == Some(f) && f in s.files && s.files[f].refs == 1
  }

  /** The pipes once the object `f` has died. */
  function Without(s: State, f: FileId): State
    requires f in s.files
  {
    if s.files[f].pipe.Some? then DropEnd(s, s.files[f].pipe.value, s.files[f].readEnd) else s
  }

  /** A release is one of three things. */
  lemma ReleaseIs(s: State, k: Slot)
    requires k in s.fds && SlotOk(s, k)
    ensures s.fds[k].file.None? ==> Release(s, k) == s.(fds := s.fds - {k})
    ensures s.fds[k].file.Some? ==>
              var f := s.fds[k].file.value;
              if s.files[f].refs > 1
              then Release(s, k) == s.(fds := s.fds - {k},
                                       files := s.files[f := s.files[f].(refs := s.files[f].refs - 1)])
              else Release(s, k) == Without(s, f).(fds := s.fds - {k}, files := s.files - {f})
  {
  }

  /** A pipe either keeps exact books or is freed, and then no end object is left. */
  lemma LastPipe(s: State, f: FileId, q: PipeId)
    requires f in s.files && q in s.pipes && PipeOk(s, q)
    ensures var r := Without(s, f).(files := s.files - {f});
            if q in r.pipes then PipeOk(r, q) else Ends(r.files, q, true) == {} && Ends(r.files, q, false) == {}
  {
    EndsDrop(s.files, f, q, true);
    EndsDrop(s.files, f, q, false);
  }

  lemma LastFile(s: State, r: State, k: Slot, f: FileId, g: FileId)
    requires Last(s, k, f) && g in s.files && g != f && FileOk(s, g)
    requires r.fds == s.fds - {k} && r.files == s.files - {f}
    requires s.files[g].pipe.Some? ==> var q := s.files[g].pipe.value;
                                       q in r.pipes || (Ends(r.files, q, true) == {} && Ends(r.files, q, false) == {})
    ensures FileOk(r, g)
  {
    NamesDrop(s.fds, k, g);
    if s.files[g].pipe.Some? {
      assert g in Ends(r.files, s.files[g].pipe.value, s.files[g].readEnd);
    }
  }

  lemma LastPipes(s: State, f: FileId, r: State)
    requires Inv(s) && f in s.files && r.files == s.files - {f} && r.pipes == Without(s, f).pipes
    ensures r.pipes.Keys <= s.pipes.Keys
    ensures forall q :: q in r.pipes ==> PipeOk(r, q)
    ensures forall q :: q in s.pipes && q !in r.pipes ==> Ends(r.files, q, true) == {} && Ends(r.files, q, false) == {}
    ensures !Without(s, f).bad && Without(s, f).made == Without(s, f).gone + |r.pipes|
  {
    assert FileOk(s, f);
    forall q | q in s.pipes
      ensures q in r.pipes ==> PipeOk(r, q)
      ensures q !in r.pipes ==> Ends(r.files, q, true) == {} && Ends(r.files, q, false) == {}
    {
      assert PipeOk(s, q);
      LastPipe(s, f, q);
    }
  }

  lemma ReleaseLast(s: State, k: Slot, f: FileId)
    requires Inv(s) && Last(s, k, f)
    ensures Inv(Without(s, f).(fds := s.fds - {k}, files := s.files - {f}))
  {
    var r := Without(s, f).(fds := s.fds - {k}, files := s.files - {f});
    assert FileOk(s, f);
    LastPipes(s, f, r);
    LastName(s.fds, k, f);
    forall j | j in r.fds ensures SlotOk(r, j) { assert SlotOk(s, j) && j !in Names(s.fds, f); }
    forall g | g in r.files ensures FileOk(r, g) { assert FileOk(s, g); LastFile(s, r, k, f, g); }
  }

  lemma ReleaseInUse(s: State, k: Slot)
    requires Inv(s) && k in s.fds && SlotOk(s, k)
    ensures Inv(Release(s, k))
  {
    ReleaseIs(s, k);
    if s.fds[k].file.None? {
      ReleasePlain(s, k);
    } else {
      var f := s.fds[k].file.value;
      assert FileOk(s, f);
      if s.files[f].refs > 1 { ReleaseShared(s, k, f); } else { ReleaseLast(s, k, f); }
    }
  }

  lemma ReleaseFds(s: State, k: Slot)
    ensures Release(s, k).fds == s.fds - {k}
  {
    if k !in s.fds { assert s.fds - {k} == s.fds; }
  }

  lemma ReleaseKeeps(s: State, k: Slot)
    requires Inv(s)
    ensures Inv(Release(s, k)) && Release(s, k).fds == s.fds - {k}
  {
    ReleaseFds(s, k);
    if k in s.fds {
      assert SlotOk(s, k);
      ReleaseInUse(s, k);
    }
  }

  // ---- cloning ------------------------------------------------------------------

  lemma CloneFile(s: State, dst: Slot, e: Entry, f: FileId, g: FileId)
    requires Inv(s) && dst !in s.fds && e.file == Some(f) && f in s.files && g in s.files
    ensures FileOk(s.(fds := s.fds[dst := e], files := s.files[f := s.files[f].(refs := s.files[f].refs + 1)]), g)
  {
    assert FileOk(s, g);
    NamesAdd(s.fds, dst, e, g);
  }

  lemma CloneShared(s: State, dst: Slot, e: Entry, f: FileId)
    requires Inv(s) && dst !in s.fds && e.file == Some(f) && f in s.files
    ensures Inv(s.(fds := s.fds[dst := e], files := s.files[f := s.files[f].(refs := s.files[f].refs + 1)]))
  {
    var r := s.(fds := s.fds[dst := e], files := s.files[f := s.files[f].(refs := s.files[f].refs + 1)]);
    forall g | g in r.files ensures FileOk(r, g) { CloneFile(s, dst, e, f, g); }
    forall j | j in r.fds ensures SlotOk(r, j) { assert j != dst ==> SlotOk(s, j); }
    SamePipes(s, r);
  }

  lemma ClonePlain(s: State, dst: Slot, e: Entry)
    requires Inv(s) && dst !in s.fds && e.file.None?
    ensures Inv(s.(fds := s.fds[dst := e]))
  {
    var r := s.(fds := s.fds[dst := e]);
    forall g | g in r.files ensures FileOk(r, g) { assert FileOk(s, g); NamesAdd(s.fds, dst, e, g); }
    forall j | j in r.fds ensures SlotOk(r, j) { assert j != dst ==> SlotOk(s, j); }
    SamePipes(s, r);
  }

  lemma CloneKeeps(s: State, dst: Slot, src: Slot)
    requires Inv(s) && dst !in s.fds
    ensures Inv(Clone(s, dst, src))
  {
    if src !in s.fds {
      assert s.fds - {dst} == s.fds;
    } else {
      assert SlotOk(s, src);
      if s.fds[src].file.Some? {
        CloneShared(s, dst, s.fds[src], s.fds[src].file.value);
      } else {
        ClonePlain(s, dst, s.fds[src]);
      }
    }
  }

  lemma SetCloexecKeeps(s: State, k: Slot, on: bool)
    requires Inv(s)
    ensures Inv(SetCloexec(s, k, on))
  {
    var r := SetCloexec(s, k, on);
    forall g | g in r.files ensures FileOk(r, g) { assert FileOk(s, g); assert Names(r.fds, g) == Names(s.fds, g); }
    forall j | j in r.fds ensures SlotOk(r, j) { assert SlotOk(s, j); }
    SamePipes(s, r);
  }

  lemma ReplaceKeeps(s: State, t: Tid, oldfd: nat, newfd: nat, memory: bool, cloexec: bool)
    requires Inv(s)
    ensures Inv(Replace(s, t, oldfd, newfd, memory, cloexec))
  {
    ReleaseKeeps(s, Slot(t, newfd));
    var u := Release(s, Slot(t, newfd));
    if CanClone(u, Slot(t, oldfd), memory) {
      CloneKeeps(u, Slot(t, newfd), Slot(t, oldfd));
      SetCloexecKeeps(Clone(u, Slot(t, newfd), Slot(t, oldfd)), Slot(t, newfd), cloexec);
    }
  }

  // ---- a new pipe ---------------------------------------------------------------

  ghost predicate Fresh(s: State, p: PipeId, rf: FileId, wf: FileId) {
    p !in s.pipes && rf !in s.files && wf !in s.files && rf != wf
  }

  lemma {:induction false} UnnamedEnds(s: State, p: PipeId)
    requires Inv(s) && p !in s.pipes
    ensures Ends(s.files, p, true) == {} && Ends(s.files, p, false) == {}
  {
    forall f | f in s.files ensures s.files[f].pipe != Some(p) { assert FileOk(s, f); }
  }

  lemma UnnamedFile(s: State, f: FileId)
    requires Inv(s) && f !in s.files
    ensures Names(s.fds, f) == {}
  {
    forall k | k in s.fds ensures s.fds[k].file != Some(f) { assert SlotOk(s, k); }
  }

  /** The state with the new pipe's two descriptors `a` and `b`. */
  function WithPipe(s: State, a: Slot, b: Slot, p: PipeId, rf: FileId, wf: FileId, cloexec: bool): State {
    s.(fds := s.fds[a := Entry(Some(rf), false, cloexec)][b := Entry(Some(wf), false, cloexec)],
       files := s.files[rf := File(1, Some(p), true)][wf := File(1, Some(p), false)],
       pipes := s.pipes[p := Pipe(2, 1, 1)],
       made := s.made + 1)
  }

  lemma WithPipeFile(s: State, a: Slot, b: Slot, p: PipeId, rf: FileId, wf: FileId, cloexec: bool, g: FileId)
    requires Inv(s) && Fresh(s, p, rf, wf) && a !in s.fds && b !in s.fds && a != b
    requires g in s.files || g == rf || g == wf
    ensures FileOk(WithPipe(s, a, b, p, rf, wf, cloexec), g)
  {
    var e1, e2 := Entry(Some(rf), false, cloexec), Entry(Some(wf), false, cloexec);
    NamesAdd(s.fds, a, e1, g);
    NamesAdd(s.fds[a := e1], b, e2, g);
    if g in s.files { assert FileOk(s, g); } else { UnnamedFile(s, g); }
  }

  lemma WithPipePipe(s: State, a: Slot, b: Slot, p: PipeId, rf: FileId, wf: FileId, cloexec: bool, q: PipeId)
    requires Inv(s) && Fresh(s, p, rf, wf) && (q in s.pipes || q == p)
    ensures PipeOk(WithPipe(s, a, b, p, rf, wf, cloexec), q)
  {
    var x1, x2 := File(1, Some(p), true), File(1, Some(p), false);
    forall e: bool
      ensures |Ends(s.files[rf := x1][wf := x2], q, e)| == |Ends(s.files, q, e)| + (if q == p then 1 else 0)
    {
      EndsAdd(s.files, rf, x1, q, e);
      EndsAdd(s.files[rf := x1], wf, x2, q, e);
    }
    if q in s.pipes { assert PipeOk(s, q); } else { UnnamedEnds(s, q); }
  }

  lemma WithPipeKeeps(s: State, a: Slot, b: Slot, p: PipeId, rf: FileId, wf: FileId, cloexec: bool)
    requires Inv(s) && Fresh(s, p, rf, wf) && a !in s.fds && b !in s.fds && a != b
    ensures Inv(WithPipe(s, a, b, p, rf, wf, cloexec))
  {
    var r := WithPipe(s, a, b, p, rf, wf, cloexec);
    forall g | g in r.files ensures FileOk(r, g) { WithPipeFile(s, a, b, p, rf, wf, cloexec, g); }
    forall q | q in r.pipes ensures PipeOk(r, q) { WithPipePipe(s, a, b, p, rf, wf, cloexec, q); }
    forall j | j in r.fds ensures SlotOk(r, j) { if j in s.fds { assert SlotOk(s, j); } }
  }

  lemma MakePipeKeeps(s: State, t: Tid, p: PipeId, rf: FileId, wf: FileId, memory: bool, cloexec: bool)
    requires Inv(s) && Fresh(s, p, rf, wf)
    ensures Inv(MakePipe(s, t, p, rf, wf, memory, cloexec))
  {
    var a := LowestFree(s, t, 0);
    var b := LowestFree(s, t, a + 1);
    if a < MAX_FDS && b < MAX_FDS && memory { WithPipeKeeps(s, Slot(t, a), Slot(t, b), p, rf, wf, cloexec); }
  }

  // ---- a new descriptor for something else --------------------------------------

  lemma OpenFile(s: State, k: Slot, f: FileId, copied: bool, cloexec: bool)
    requires Inv(s) && k !in s.fds && f !in s.files
    ensures Inv(s.(fds := s.fds[k := Entry(Some(f), copied, cloexec)], files := s.files[f := File(1, None, false)]))
  {
    var e := Entry(Some(f), copied, cloexec);
    var r := s.(fds := s.fds[k := e], files := s.files[f := File(1, None, false)]);
    forall g | g in r.files ensures FileOk(r, g) {
      NamesAdd(s.fds, k, e, g);
      if g == f { UnnamedFile(s, f); } else { assert FileOk(s, g); }
    }
    forall j | j in r.fds ensures SlotOk(r, j) { assert j != k ==> SlotOk(s, j); }
    forall q | q in r.pipes ensures PipeOk(r, q) {
      assert PipeOk(s, q);
      EndsAdd(s.files, f, File(1, None, false), q, true);
      EndsAdd(s.files, f, File(1, None, false), q, false);
    }
  }

  lemma OpenKeeps(s: State, t: Tid, file: Option<FileId>, copied: bool, memory: bool, cloexec: bool)
    requires Inv(s) && (file.Some? ==> file.value !in s.files)
    ensures Inv(Open(s, t, file, copied, memory, cloexec))
  {
    var a := LowestFree(s, t, 0);
    if a < MAX_FDS && memory {
      match file
      case None => ClonePlain(s, Slot(t, a), Entry(file, copied, cloexec));
      case Some(f) => OpenFile(s, Slot(t, a), f, copied, cloexec);
    }
  }

  // ---- closing many, forking ----------------------------------------------------

  lemma CloseOneKeeps(s: State, k: Slot, cloexecOnly: bool)
    requires Inv(s)
    ensures Inv(CloseOne(s, k, cloexecOnly))
  {
    ReleaseKeeps(s, k);
  }

  lemma {:induction false} CloseRangeKeeps(s: State, t: Tid, i: nat, n: nat, cloexecOnly: bool)
    requires Inv(s) && i <= n
    ensures Inv(CloseRange(s, t, i, n, cloexecOnly))
    decreases n - i
  {
    if i < n {
      CloseOneKeeps(s, Slot(t, i), cloexecOnly);
      CloseRangeKeeps(CloseOne(s, Slot(t, i), cloexecOnly), t, i + 1, n, cloexecOnly);
    }
  }

  /** `t` has no descriptors from `i` on. A new task has none at all. */
  ghost predicate Bare(s: State, t: Tid, i: nat) { forall k :: k in s.fds && k.task == t ==> k.fd < i }

  lemma CloneFds(s: State, dst: Slot, src: Slot)
    ensures Clone(s, dst, src).fds == if src in s.fds then s.fds[dst := s.fds[src]] else s.fds - {dst}
  {
  }

  /** `b` is `a` with the descriptors of `parent` from `i` to `n` copied to `child`. */
  ghost predicate Copied(a: map<Slot, Entry>, b: map<Slot, Entry>, parent: Tid, child: Tid, i: nat, n: nat) {
    forall k: Slot ::
      if k.task == child && i <= k.fd < n
      then (k in b <==> Slot(parent, k.fd) in a) && (k in b ==> b[k] == a[Slot(parent, k.fd)])
      else (k in b <==> k in a) && (k in b ==> b[k] == a[k])
  }

  lemma CopyOne(a: map<Slot, Entry>, b: map<Slot, Entry>, c: map<Slot, Entry>, parent: Tid, child: Tid, i: nat, n: nat)
    requires parent != child && i < n && Copied(b, c, parent, child, i + 1, n)
    requires var src, dst := Slot(parent, i), Slot(child, i); b == if src in a then a[dst := a[src]] else a - {dst}
    ensures Copied(a, c, parent, child, i, n)
  {
  }

  lemma {:induction false} CloneRangeCopies(s: State, parent: Tid, child: Tid, i: nat, n: nat)
    requires parent != child && i <= n
    ensures Copied(s.fds, CloneRange(s, parent, child, i, n).fds, parent, child, i, n)
    decreases n - i
  {
    if i < n {
      var u := Clone(s, Slot(child, i), Slot(parent, i));
      CloneFds(s, Slot(child, i), Slot(parent, i));
      CloneRangeCopies(u, parent, child, i + 1, n);
      CopyOne(s.fds, u.fds, CloneRange(s, parent, child, i, n).fds, parent, child, i, n);
    }
  }

  /** The same objects, whatever their counts. */
  ghost predicate SameObjects(s: State, r: State) {
    && r.files.Keys == s.files.Keys && r.pipes == s.pipes && r.made == s.made && r.gone == s.gone && r.bad == s.bad
    && forall f :: f in s.files ==> r.files[f].pipe == s.files[f].pipe && r.files[f].readEnd == s.files[f].readEnd
  }

  lemma CloneOne(s: State, parent: Tid, child: Tid, i: nat)
    requires Inv(s) && Bare(s, child, i)
    ensures var r := Clone(s, Slot(child, i), Slot(parent, i)); Inv(r) && Bare(r, child, i + 1) && SameObjects(s, r)
  {
    if Slot(parent, i) in s.fds { assert SlotOk(s, Slot(parent, i)); }
    CloneKeeps(s, Slot(child, i), Slot(parent, i));
  }

  lemma {:induction false} CloneRangeKeeps(s: State, parent: Tid, child: Tid, i: nat, n: nat)
    requires Inv(s) && Bare(s, child, i) && i <= n
    ensures Inv(CloneRange(s, parent, child, i, n)) && SameObjects(s, CloneRange(s, parent, child, i, n))
    decreases n - i
  {
    if i < n {
      CloneOne(s, parent, child, i);
      CloneRangeKeeps(Clone(s, Slot(child, i), Slot(parent, i)), parent, child, i + 1, n);
    }
  }

  lemma ForkKeeps(s: State, parent: Tid, child: Tid, memory: seq<bool>)
    requires Inv(s) && Bare(s, child, 0) && |memory| == MAX_FDS
    ensures Inv(Fork(s, parent, child, memory))
  {
    var n := FirstFailure(s, parent, 0, memory);
    CloneRangeKeeps(s, parent, child, 0, n);
    if n != MAX_FDS { CloseRangeKeeps(CloneRange(s, parent, child, 0, n), child, 0, n, false); }
  }

  // ---- a failed fork leaves no trace --------------------------------------------

  lemma Subset(a: set<Slot>, b: set<Slot>)
    requires a <= b
    ensures |a| <= |b|
  {
    assert b == a + (b - a);
    assert |a + (b - a)| == |a| + |b - a|;
  }

  /** A descriptor beside the old ones is never the last name of its object. */
  lemma NotLast(s: State, v: State, k: Slot, f: FileId)
    requires f in s.files && FileOk(s, f) && f in v.files && FileOk(v, f)
    requires k !in s.fds && k in v.fds && v.fds[k].file == Some(f)
    requires forall j :: j in s.fds ==> j in v.fds && v.fds[j] == s.fds[j]
    ensures v.files[f].refs > 1
  {
    var m := Names(s.fds, f) + {k};
    assert m <= Names(v.fds, f);
    Subset(m, Names(v.fds, f));
  }

  lemma ReleaseObjects(s: State, v: State, k: Slot)
    requires Inv(s) && Inv(v) && SameObjects(s, v) && k !in s.fds
    requires forall j :: j in s.fds ==> j in v.fds && v.fds[j] == s.fds[j]
    ensures SameObjects(s, Release(v, k))
  {
    if k in v.fds {
      assert SlotOk(v, k);
      ReleaseIs(v, k);
      if v.fds[k].file.Some? {
        var f := v.fds[k].file.value;
        assert FileOk(s, f) && FileOk(v, f);
        NotLast(s, v, k, f);
      }
    }
  }

  /** `v` has, beside the descriptors of `s`, those of `child` from `i` to `n`. */
  ghost predicate Undone(s: State, v: State, child: Tid, i: nat, n: nat) {
    && (forall j :: j in s.fds ==> j in v.fds && v.fds[j] == s.fds[j])
    && (forall j :: j in v.fds && j !in s.fds ==> j.task == child && i <= j.fd < n)
  }

  lemma UndoOne(s: State, v: State, child: Tid, i: nat, n: nat)
    requires Inv(s) && Inv(v) && Bare(s, child, 0) && SameObjects(s, v) && Undone(s, v, child, i, n)
    ensures var r := Release(v, Slot(child, i)); Inv(r) && SameObjects(s, r) && Undone(s, r, child, i + 1, n)
  {
    ReleaseObjects(s, v, Slot(child, i));
    ReleaseKeeps(v, Slot(child, i));
  }

  lemma {:induction false} Rollback(s: State, v: State, child: Tid, i: nat, n: nat)
    requires Inv(s) && Inv(v) && Bare(s, child, 0) && SameObjects(s, v) && Undone(s, v, child, i, n) && i <= n
    ensures CloseRange(v, child, i, n, false) == s
    decreases n - i
  {
    if i < n {
      UndoOne(s, v, child, i, n);
      Rollback(s, Release(v, Slot(child, i)), child, i + 1, n);
    } else {
      assert v.fds == s.fds;
      SameCounts(s, v);
    }
  }

  /** Exact books leave no freedom: the descriptors determine the counts. */
  lemma SameCounts(s: State, v: State)
    requires Inv(s) && Inv(v) && SameObjects(s, v) && v.fds == s.fds
    ensures v == s
  {
    forall f | f in s.files ensures v.files[f] == s.files[f] { assert FileOk(s, f) && FileOk(v, f); }
    assert v.files == s.files;
  }

  /** A fork that fails part way leaves every descriptor, object, pipe and count as
      it was. */
  lemma ForkRollsBack(s: State, parent: Tid, child: Tid, memory: seq<bool>)
    requires Inv(s) && Bare(s, child, 0) && parent != child && |memory| == MAX_FDS
    requires FirstFailure(s, parent, 0, memory) < MAX_FDS
    ensures Fork(s, parent, child, memory) == s
  {
    var n := FirstFailure(s, parent, 0, memory);
    CloneRangeKeeps(s, parent, child, 0, n);
    CloneRangeCopies(s, parent, child, 0, n);
    Rollback(s, CloneRange(s, parent, child, 0, n), child, 0, n);
  }

  /** A fork that succeeds gives the child the parent's descriptors and changes no
      other task's. */
  lemma ForkCopies(s: State, parent: Tid, child: Tid, memory: seq<bool>)
    requires Inv(s) && Bare(s, child, 0) && parent != child && |memory| == MAX_FDS
    requires FirstFailure(s, parent, 0, memory) == MAX_FDS
    ensures Copied(s.fds, Fork(s, parent, child, memory).fds, parent, child, 0, MAX_FDS)
    ensures SameObjects(s, Fork(s, parent, child, memory))
  {
    CloneRangeCopies(s, parent, child, 0, MAX_FDS);
    CloneRangeKeeps(s, parent, child, 0, MAX_FDS);
  }
}
