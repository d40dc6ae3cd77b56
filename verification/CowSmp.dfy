/** Copy-on-write under concurrency: fault handlers, fork, mprotect, mmap and
    munmap of different address spaces interleave step by step, and every CPU
    caches translations that may be stale until a flush. Each space has one
    thread; a flush reaches all CPUs. */
module CowSmp {

  type Cpu = nat
  type Space = nat
  type Vpn = nat
  type Frame = nat
  type Page = int

  datatype Leaf = Leaf(frame: Frame, w: bool, cow: bool)
  datatype Key = Key(space: Space, vpn: Vpn)

  /** Where the thread of a space is. `User` is the only place that stores. */
  datatype Pc =
    | User
    | Unborn                                      // a child whose page table is being filled
    | GotLeaf(v: Vpn, e: Leaf)                    // write fault: the leaf is marked
    | LastOne(v: Vpn, e: Leaf)                    // the count was read as 1
    | MustCopy(v: Vpn, e: Leaf)                   // the count was read as more
    | HasFrame(v: Vpn, e: Leaf, new_: Frame)      // a frame to copy into
    | HasCopy(v: Vpn, e: Leaf, new_: Frame)       // contents copied
    | Installed(v: Vpn, old_: Frame)              // new leaf written, not flushed
    | Flushed(old_: Frame)                        // flushed, old frame not yet let go
    | Rewritten(vs: set<Vpn>)                     // flags of leaves changed, not flushed
    | Unmapped(v: Vpn, old_: Frame)               // leaf removed, not flushed
    | Forking(child: Space, done: set<Vpn>)       // sharing leaves, parent not flushed
    | Marked(child: Space, done: set<Vpn>, v: Vpn) // leaf v marked, count not yet raised
    | Undoing(child: Space, left: set<Vpn>)       // fork failed: flushed, child being destroyed

  datatype State = State(
    leaves: map<Key, Leaf>,
    rc: map<Frame, nat>,
    data: map<Frame, Page>,
    tlb: map<(Cpu, Key), Leaf>,
    pc: map<Space, Pc>)

  function Rc(s: State, f: Frame): nat { if f in s.rc then s.rc[f] else 0 }
  function Data(s: State, f: Frame): Page { if f in s.data then s.data[f] else 0 }
  function At(s: State, a: Space): Pc { if a in s.pc then s.pc[a] else Unborn }

  function MkCow(e: Leaf): Leaf { e.(w := false, cow := true) }

  // ---- steps --------------------------------------------------------------------

  datatype Step =
    | Fill(c: Cpu, k: Key)
    | Evict(c: Cpu, k: Key)
    | Store(c: Cpu, k: Key, p: Page)
    | Fault(k: Key)
    | ReadCount(a: Space)
    | TakeFrame(a: Space, n: Frame)
    | NoFrame(a: Space)
    | CopyPage(a: Space)
    | Install(a: Space)
    | InstallLast(a: Space)
    | Flush(a: Space)
    | LetGo(a: Space)
    | Protect(k: Key, w: bool)
    | MapNew(k: Key, n: Frame, p: Page, w: bool)
    | Unmap(k: Key)
    | ForkBegin(a: Space, child: Space)
    | ForkMark(a: Space, v: Vpn)
    | ForkShare(a: Space)
    | ForkEnd(a: Space)
    | ForkFail(a: Space)
    | ForkDrop(a: Space, v: Vpn)
    | ForkUndone(a: Space)

  ghost predicate Enabled(s: State, step: Step) {
    match step
    case Fill(c, k) => k in s.leaves && At(s, k.space) != Unborn
    case Evict(c, k) => true
    case Store(c, k, p) => At(s, k.space) == User && (c, k) in s.tlb && s.tlb[(c, k)].w
    case Fault(k) => At(s, k.space) == User
    case ReadCount(a) => At(s, a).GotLeaf?
    case TakeFrame(a, n) => At(s, a).MustCopy? && Rc(s, n) == 0
    case NoFrame(a) => At(s, a).MustCopy?
    case CopyPage(a) => At(s, a).HasFrame?
    case Install(a) => At(s, a).HasCopy?
    case InstallLast(a) => At(s, a).LastOne?
    case Flush(a) => At(s, a).Installed? || At(s, a).Rewritten? || At(s, a).Unmapped?
    case LetGo(a) => At(s, a).Flushed?
    case Protect(k, w) => (At(s, k.space) == User || At(s, k.space).Rewritten?) && k in s.leaves
    case MapNew(k, n, p, w) => At(s, k.space) == User && k !in s.leaves && Rc(s, n) == 0
    case Unmap(k) => At(s, k.space) == User && k in s.leaves
    case ForkBegin(a, child) => At(s, a) == User && child !in s.pc && forall v: Vpn :: Key(child, v) !in s.leaves
    case ForkMark(a, v) => At(s, a).Forking? && v !in At(s, a).done && Key(a, v) in s.leaves
    case ForkShare(a) => At(s, a).Marked?
    case ForkEnd(a) => At(s, a).Forking? && forall v: Vpn :: Key(a, v) in s.leaves ==> v in At(s, a).done
    case ForkFail(a) => At(s, a).Forking?
    case ForkDrop(a, v) => At(s, a).Undoing? && v in At(s, a).left
    case ForkUndone(a) => At(s, a).Undoing? && At(s, a).left == {}
  }

  function FlushPages(tlb: map<(Cpu, Key), Leaf>, a: Space, vs: set<Vpn>): map<(Cpu, Key), Leaf> {
    map x | x in tlb && !(x.1.space == a && x.1.vpn in vs) :: tlb[x]
  }

  /** The pages changed since the last flush. */
  function Changed(p: Pc): set<Vpn> { if p.Rewritten? then p.vs else {} }

  function FlushSpace(tlb: map<(Cpu, Key), Leaf>, a: Space): map<(Cpu, Key), Leaf> {
    map x | x in tlb && x.1.space != a :: tlb[x]
  }

  function SetPc(s: State, a: Space, p: Pc): State { s.(pc := s.pc[a := p]) }

  ghost function Apply(s: State, step: Step): State
    requires Enabled(s, step)
  {
    match step
    case Fill(c, k) => s.(tlb := s.tlb[(c, k) := s.leaves[k]])
    case Evict(c, k) => s.(tlb := s.tlb - {(c, k)})
    case Store(c, k, p) => s.(data := s.data[s.tlb[(c, k)].frame := p])
    case Fault(k) =>
      if k !in s.leaves then s
      else if s.leaves[k].cow then SetPc(s, k.space, GotLeaf(k.vpn, s.leaves[k]))
      else if s.leaves[k].w then SetPc(s, k.space, Rewritten({k.vpn}))
      else s
    case ReadCount(a) =>
      var p := s.pc[a];
      SetPc(s, a, if Rc(s, p.e.frame) > 1 then MustCopy(p.v, p.e) else LastOne(p.v, p.e))
    case TakeFrame(a, n) =>
      var p := s.pc[a];
      SetPc(s.(rc := s.rc[n := 1]), a, HasFrame(p.v, p.e, n))
    case NoFrame(a) => SetPc(s, a, User)
    case CopyPage(a) =>
      var p := s.pc[a];
      SetPc(s.(data := s.data[p.new_ := Data(s, p.e.frame)]), a, HasCopy(p.v, p.e, p.new_))
    case Install(a) =>
      var p := s.pc[a];
      SetPc(s.(leaves := s.leaves[Key(a, p.v) := Leaf(p.new_, true, false)]), a, Installed(p.v, p.e.frame))
    case InstallLast(a) =>
      var p := s.pc[a];
      SetPc(s.(leaves := s.leaves[Key(a, p.v) := Leaf(p.e.frame, true, false)]), a, Rewritten({p.v}))
    case Flush(a) =>
      var p := s.pc[a];
      SetPc(s.(tlb := FlushPages(s.tlb, a, if p.Rewritten? then p.vs else {p.v})), a,
            if p.Rewritten? then User else Flushed(p.old_))
    case LetGo(a) =>
      var f := s.pc[a].old_;
      SetPc(s.(rc := s.rc[f := if Rc(s, f) > 0 then Rc(s, f) - 1 else 0]), a, User)
    case Protect(k, w) =>
      var e := s.leaves[k];
      var cow := w && (e.cow || Rc(s, e.frame) > 1);
      SetPc(s.(leaves := s.leaves[k := Leaf(e.frame, w && !cow, cow)]), k.space,
            Rewritten(Changed(At(s, k.space)) + {k.vpn}))
    case MapNew(k, n, p, w) =>
      s.(rc := s.rc[n := 1], data := s.data[n := p], leaves := s.leaves[k := Leaf(n, w, false)])
    case Unmap(k) =>
      SetPc(s.(leaves := s.leaves - {k}), k.space, Unmapped(k.vpn, s.leaves[k].frame))
    case ForkBegin(a, child) =>
      s.(pc := s.pc[child := Unborn][a := Forking(child, {})])
    case ForkMark(a, v) =>
      var p := s.pc[a];
      var e := s.leaves[Key(a, v)];
      SetPc(s.(leaves := s.leaves[Key(a, v) := if e.w then MkCow(e) else e]), a, Marked(p.child, p.done, v))
    case ForkShare(a) =>
      var p := s.pc[a];
      if Key(a, p.v) !in s.leaves then s
      else
        var e := s.leaves[Key(a, p.v)];
        SetPc(s.(rc := s.rc[e.frame := Rc(s, e.frame) + 1], leaves := s.leaves[Key(p.child, p.v) := e]),
              a, Forking(p.child, p.done + {p.v}))
    case ForkEnd(a) =>
      s.(tlb := FlushSpace(s.tlb, a), pc := s.pc[s.pc[a].child := User][a := User])
    case ForkFail(a) =>
      SetPc(s.(tlb := FlushSpace(s.tlb, a)), a, Undoing(s.pc[a].child, s.pc[a].done))
    case ForkDrop(a, v) =>
      var p := s.pc[a];
      var k := Key(p.child, v);
      var s1 := SetPc(s, a, Undoing(p.child, p.left - {v}));
      if k !in s.leaves then s1
      else
        var f := s.leaves[k].frame;
        s1.(leaves := s.leaves - {k}, rc := s.rc[f := if Rc(s, f) > 0 then Rc(s, f) - 1 else 0])
    case ForkUndone(a) => s.(pc := (s.pc - {s.pc[a].child})[a := User])
  }
}
