/** Runs of the concurrent machine: what each space sees changes only as it would
    if fork copied every page. */
module CowSmpRun {
  import opened CowSmp
  import opened CowSmpProps

  datatype View = View(bytes: Page, writable: bool)

  /** What the spaces see: contents and logical protection. */
  ghost function Views(s: State): map<Key, View> {
    map k | k in s.leaves :: View(Data(s, s.leaves[k].frame), s.leaves[k].w || s.leaves[k].cow)
  }

  /** The effect of a step on eagerly copied pages. Every step of the fault
      handler, of a flush and of the caches is invisible. */
  ghost function Effect(s: State, step: Step, w: map<Key, View>): map<Key, View> {
    match step
    case Store(c, k, p) => if k in w then w[k := w[k].(bytes := p)] else w
    case Protect(k, wr) => if k in w then w[k := w[k].(writable := wr)] else w
    case MapNew(k, n, p, wr) => w[k := View(p, wr)]
    case Unmap(k) => w - {k}
    case ForkShare(a) =>
      if At(s, a).Marked? && Key(a, At(s, a).v) in w
      then w[Key(At(s, a).child, At(s, a).v) := w[Key(a, At(s, a).v)]] else w
    case ForkDrop(a, v) => if At(s, a).Undoing? then w - {Key(At(s, a).child, v)} else w
    case _ => w
  }

  lemma StepKeeps(s: State, step: Step)
    requires Inv(s) && Enabled(s, step)
    ensures Inv(Apply(s, step))
  {
    match step
    case Fill(c, k) => FillKeeps(s, c, k);
    case Evict(c, k) => EvictKeeps(s, c, k);
    case Store(c, k, p) => StoreKeeps(s, c, k, p);
    case Fault(k) => FaultKeeps(s, k);
    case ReadCount(a) => ReadCountKeeps(s, a);
    case TakeFrame(a, n) => TakeFrameKeeps(s, a, n);
    case NoFrame(a) => NoFrameKeeps(s, a);
    case CopyPage(a) => CopyPageKeeps(s, a);
    case Install(a) => InstallKeeps(s, a);
    case InstallLast(a) => InstallLastKeeps(s, a);
    case Flush(a) => FlushKeeps(s, a);
    case LetGo(a) => LetGoKeeps(s, a);
    case Protect(k, w) => ProtectKeeps(s, k, w);
    case MapNew(k, n, p, w) => MapNewKeeps(s, k, n, p, w);
    case Unmap(k) => UnmapKeeps(s, k);
    case ForkBegin(a, child) => ForkBeginKeeps(s, a, child);
    case ForkMark(a, v) => ForkMarkKeeps(s, a, v);
    case ForkShare(a) => ForkShareKeeps(s, a);
    case ForkEnd(a) => ForkEndKeeps(s, a);
    case ForkFail(a) => ForkFailKeeps(s, a);
    case ForkDrop(a, v) => ForkDropKeeps(s, a, v);
    case ForkUndone(a) => ForkUndoneKeeps(s, a);
  }

  /** A store through any CPU's cached translation, however stale, is permitted to
      its page and changes that page alone. */
  lemma StoreView(s: State, c: Cpu, k: Key, p: Page)
    requires Inv(s) && Enabled(s, Store(c, k, p))
    ensures k in Views(s) && Views(s)[k].writable
    ensures Views(Apply(s, Store(c, k, p))) == Views(s)[k := Views(s)[k].(bytes := p)]
  {
    StoreIsPrivate(s, c, k, p);
    forall j | j in s.leaves && j != k ensures s.leaves[j].frame != s.leaves[k].frame {
      assert Target(s, ByLeaf(j)) == Held(s.leaves[j].frame);
    }
  }

  /** Filling a new frame is seen by nobody. */
  lemma NewFrameUnseen(s: State, a: Space, k: Key)
    requires Inv(s) && NewOf(At(s, a)).Held? && k in s.leaves
    ensures s.leaves[k].frame != NewOf(At(s, a)).f
  {
    assert PcOk(s, a);
    if s.leaves[k].frame == NewOf(At(s, a)).f { TwoHolders(s, s.leaves[k].frame, ByLeaf(k), ByNew(a)); }
  }

  /** The steps of the caches, of the fault handler and of a flush. */
  predicate Quiet(step: Step) {
    !step.Store? && !step.Protect? && !step.MapNew? && !step.Unmap? && !step.ForkShare? && !step.ForkDrop?
  }

  lemma SameViews(s: State, r: State)
    requires r.leaves.Keys == s.leaves.Keys
    requires forall k :: k in s.leaves ==> (r.leaves[k].w || r.leaves[k].cow) == (s.leaves[k].w || s.leaves[k].cow)
    requires forall k :: k in s.leaves ==> Data(r, r.leaves[k].frame) == Data(s, s.leaves[k].frame)
    ensures Views(r) == Views(s)
  {
  }

  lemma CopyPageView(s: State, a: Space)
    requires Inv(s) && Enabled(s, CopyPage(a))
    ensures Views(Apply(s, CopyPage(a))) == Views(s)
  {
    forall k | k in s.leaves ensures s.leaves[k].frame != At(s, a).new_ { NewFrameUnseen(s, a, k); }
    SameViews(s, Apply(s, CopyPage(a)));
  }

  /** The private copy shows what the shared page showed. */
  lemma InstallView(s: State, a: Space)
    requires Inv(s) && Enabled(s, Install(a))
    ensures Views(Apply(s, Install(a))) == Views(s)
  {
    assert PcOk(s, a);
    SameViews(s, Apply(s, Install(a)));
  }

  lemma InstallLastView(s: State, a: Space)
    requires Inv(s) && Enabled(s, InstallLast(a))
    ensures Views(Apply(s, InstallLast(a))) == Views(s)
  {
    assert PcOk(s, a);
    SameViews(s, Apply(s, InstallLast(a)));
  }

  lemma ForkMarkView(s: State, a: Space, v: Vpn)
    requires Enabled(s, ForkMark(a, v))
    ensures Views(Apply(s, ForkMark(a, v))) == Views(s)
  {
    SameViews(s, Apply(s, ForkMark(a, v)));
  }

  lemma PlainView(s: State, step: Step)
    requires Enabled(s, step) && Quiet(step)
    requires !step.CopyPage? && !step.Install? && !step.InstallLast? && !step.ForkMark?
    ensures Views(Apply(s, step)) == Views(s)
  {
    var r := Apply(s, step);
    assert r.leaves == s.leaves && r.data == s.data;
  }

  lemma QuietRefines(s: State, step: Step)
    requires Inv(s) && Enabled(s, step) && Quiet(step)
    ensures Views(Apply(s, step)) == Views(s)
  {
    if step.CopyPage? {
      CopyPageView(s, step.a);
    } else if step.Install? {
      InstallView(s, step.a);
    } else if step.InstallLast? {
      InstallLastView(s, step.a);
    } else if step.ForkMark? {
      ForkMarkView(s, step.a, step.v);
    } else {
      PlainView(s, step);
    }
  }

  lemma ProtectView(s: State, k: Key, w: bool)
    requires Inv(s) && Enabled(s, Protect(k, w))
    ensures Views(Apply(s, Protect(k, w))) == Views(s)[k := Views(s)[k].(writable := w)]
  {
  }

  lemma UnmapView(s: State, k: Key)
    requires Inv(s) && Enabled(s, Unmap(k))
    ensures Views(Apply(s, Unmap(k))) == Views(s) - {k}
  {
  }

  lemma MapView(s: State, k: Key, n: Frame, p: Page, w: bool)
    requires Inv(s) && Enabled(s, MapNew(k, n, p, w))
    ensures Views(Apply(s, MapNew(k, n, p, w))) == Views(s)[k := View(p, w)]
  {
    forall j | j in s.leaves ensures s.leaves[j].frame != n { HeldFrame(s, s.leaves[j].frame, ByLeaf(j)); }
  }

  lemma ShareView(s: State, a: Space)
    requires Inv(s) && Enabled(s, ForkShare(a))
    ensures Views(Apply(s, ForkShare(a))) == Effect(s, ForkShare(a), Views(s))
  {
    assert PcOk(s, a);
  }

  lemma DropView(s: State, a: Space, v: Vpn)
    requires Inv(s) && Enabled(s, ForkDrop(a, v))
    ensures Views(Apply(s, ForkDrop(a, v))) == Views(s) - {Key(At(s, a).child, v)}
  {
    assert PcOk(s, a);
    assert Key(At(s, a).child, v) in s.leaves;
  }

  lemma StepRefines(s: State, step: Step)
    requires Inv(s) && Enabled(s, step)
    ensures Views(Apply(s, step)) == Effect(s, step, Views(s))
  {
    if Quiet(step) {
      QuietRefines(s, step);
      return;
    }
    match step
    case Store(c, k, p) => StoreView(s, c, k, p);
    case Protect(k, w) => ProtectView(s, k, w);
    case MapNew(k, n, p, w) => MapView(s, k, n, p, w);
    case Unmap(k) => UnmapView(s, k);
    case ForkShare(a) => ShareView(s, a);
    case ForkDrop(a, v) => DropView(s, a, v);
  }

  /** When parent and child resume after a fork, the child sees exactly the pages of
      the parent, and no CPU caches a translation of the parent. */
  lemma ForkEndCopies(s: State, a: Space)
    requires Inv(s) && Enabled(s, ForkEnd(a))
    ensures var child := At(s, a).child; var r := Apply(s, ForkEnd(a));
            && (forall v: Vpn :: Key(a, v) in Views(r) <==> Key(child, v) in Views(r))
            && (forall v: Vpn :: Key(a, v) in Views(r) ==> Views(r)[Key(a, v)] == Views(r)[Key(child, v)])
            && (forall x :: x in r.tlb ==> x.1.space != a)
  {
    assert PcOk(s, a);
    var child := At(s, a).child;
    forall v: Vpn ensures Key(a, v) in s.leaves <==> Key(child, v) in s.leaves {
      if Key(a, v) in s.leaves || Key(child, v) in s.leaves { assert SameLeaf(s, Key(a, v), Key(child, v)); }
    }
    forall v: Vpn | Key(a, v) in s.leaves ensures s.leaves[Key(a, v)] == s.leaves[Key(child, v)] {
      assert SameLeaf(s, Key(a, v), Key(child, v));
    }
  }

  /** When a parent resumes after a fork that failed, nothing of the child is left: no page,
      no thread and no cached translation. */
  lemma ForkUndoneLeavesNothing(s: State, a: Space)
    requires Inv(s) && Enabled(s, ForkUndone(a))
    ensures var child := At(s, a).child; var r := Apply(s, ForkUndone(a));
            && (forall k :: k in Views(r) ==> k.space != child) && child !in r.pc
            && (forall x :: x in r.tlb ==> x.1.space != child)
            && Views(r) == Views(s)
  {
    assert PcOk(s, a);
    var child := At(s, a).child;
    forall k | k in s.leaves ensures k.space != child { assert k == Key(k.space, k.vpn); }
    forall x | x in s.tlb ensures x.1.space != child { assert TlbOk(s, x); }
  }

  // ---- runs ---------------------------------------------------------------------

  ghost function Start(spaces: set<Space>): State {
    State(map[], map[], map[], map[], map a | a in spaces :: User)
  }

  lemma StartInv(spaces: set<Space>)
    ensures Inv(Start(spaces))
  {
    var s := Start(spaces);
    forall f ensures RcOk(s, f) { assert Holders(s, f) == {}; }
  }

  ghost predicate AllEnabled(s: State, steps: seq<Step>)
    decreases |steps|
  {
    steps == [] || (Enabled(s, steps[0]) && AllEnabled(Apply(s, steps[0]), steps[1..]))
  }

  ghost function Run(s: State, steps: seq<Step>): State
    requires AllEnabled(s, steps)
    decreases |steps|
  {
    if steps == [] then s else Run(Apply(s, steps[0]), steps[1..])
  }

  ghost function RunEffects(s: State, steps: seq<Step>, w: map<Key, View>): map<Key, View>
    requires AllEnabled(s, steps)
    decreases |steps|
  {
    if steps == [] then w else RunEffects(Apply(s, steps[0]), steps[1..], Effect(s, steps[0], w))
  }

  /** Every interleaving keeps the counts exact and the caches safe, and shows each
      space the bytes and protections eager copying would show it. */
  lemma {:induction false} RunRefines(s: State, steps: seq<Step>)
    requires Inv(s) && AllEnabled(s, steps)
    ensures Inv(Run(s, steps))
    ensures Views(Run(s, steps)) == RunEffects(s, steps, Views(s))
    decreases |steps|
  {
    if steps != [] {
      StepKeeps(s, steps[0]);
      StepRefines(s, steps[0]);
      RunRefines(Apply(s, steps[0]), steps[1..]);
    }
  }

  /** A read through any CPU's cached translation by a running thread shows what its space
      should see. */
  lemma ReadShowsView(s: State, x: (Cpu, Key))
    requires Inv(s) && x in s.tlb && At(s, x.1.space) == User
    ensures x.1 in Views(s) && Data(s, s.tlb[x].frame) == Views(s)[x.1].bytes
  {
    assert TlbOk(s, x);
  }

  /** In every reachable state a frame's count is the number of its references, a cached
      translation names a referenced frame, and what a running thread reads through one
      is its own space's page. */
  lemma ReachableIsSafe(spaces: set<Space>, steps: seq<Step>)
    requires AllEnabled(Start(spaces), steps)
    ensures var s := Run(Start(spaces), steps);
            && (forall f :: Rc(s, f) == |Holders(s, f)|)
            && (forall x :: x in s.tlb ==> Rc(s, s.tlb[x].frame) >= 1)
            && (forall x :: x in s.tlb && At(s, x.1.space) == User ==>
                  x.1 in Views(s) && Data(s, s.tlb[x].frame) == Views(s)[x.1].bytes)
  {
    StartInv(spaces);
    RunRefines(Start(spaces), steps);
    var s := Run(Start(spaces), steps);
    forall f ensures Rc(s, f) == |Holders(s, f)| { assert RcOk(s, f); }
    forall x | x in s.tlb ensures Rc(s, s.tlb[x].frame) >= 1 { CachedFramesAreHeld(s, x); }
    forall x | x in s.tlb && At(s, x.1.space) == User
      ensures x.1 in Views(s) && Data(s, s.tlb[x].frame) == Views(s)[x.1].bytes
    {
      ReadShowsView(s, x);
    }
  }
}
