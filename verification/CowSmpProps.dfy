/** Safety of concurrent copy-on-write: exact counts, no stale writable
    translation, and views that change only as eager copying would change them. */
module CowSmpProps {
  import opened CowSmp

  // ---- who holds a frame ------------------------------------------------------

  /** A reference: a leaf, the old frame of a handler in flight, or its new frame. */
  datatype Holder = ByLeaf(k: Key) | ByOld(a: Space) | ByNew(a: Space)

  datatype MaybeFrame = NoneHeld | Held(f: Frame)

  function OldOf(p: Pc): MaybeFrame {
    match p
    case Installed(_, f) => Held(f)
    case Flushed(f) => Held(f)
    case Unmapped(_, f) => Held(f)
    case _ => NoneHeld
  }

  function NewOf(p: Pc): MaybeFrame {
    match p
    case HasFrame(_, _, n) => Held(n)
    case HasCopy(_, _, n) => Held(n)
    case _ => NoneHeld
  }

  function Target(s: State, h: Holder): MaybeFrame {
    match h
    case ByLeaf(k) => if k in s.leaves then Held(s.leaves[k].frame) else NoneHeld
    case ByOld(a) => OldOf(At(s, a))
    case ByNew(a) => NewOf(At(s, a))
  }

  ghost function Candidates(s: State): (r: set<Holder>)
    ensures forall h :: Target(s, h) != NoneHeld ==> h in r
  {
    (set k | k in s.leaves :: ByLeaf(k)) + (set a | a in s.pc :: ByOld(a)) + (set a | a in s.pc :: ByNew(a))
  }

  ghost function Holders(s: State, f: Frame): (r: set<Holder>)
    ensures forall h :: h in r <==> Target(s, h) == Held(f)
  {
    set h | h in Candidates(s) && Target(s, h) == Held(f)
  }

  lemma SameHolders(s: State, s': State, f: Frame)
    requires forall h :: Target(s', h) == Held(f) <==> Target(s, h) == Held(f)
    ensures Holders(s', f) == Holders(s, f)
  {}

  lemma AddHolder(s: State, s': State, f: Frame, h: Holder)
    requires Target(s, h) != Held(f) && Target(s', h) == Held(f)
    requires forall g :: g != h ==> (Target(s', g) == Held(f) <==> Target(s, g) == Held(f))
    ensures |Holders(s', f)| == |Holders(s, f)| + 1
  {
    assert Holders(s', f) == Holders(s, f) + {h};
  }

  lemma DropHolder(s: State, s': State, f: Frame, h: Holder)
    requires Target(s, h) == Held(f) && Target(s', h) != Held(f)
    requires forall g :: g != h ==> (Target(s', g) == Held(f) <==> Target(s, g) == Held(f))
    ensures |Holders(s', f)| == |Holders(s, f)| - 1
  {
    AddHolder(s', s, f, h);
  }

  lemma SwapHolder(s: State, s': State, f: Frame, g: Holder, h: Holder)
    requires Target(s, g) == Held(f) && Target(s', g) != Held(f)
    requires Target(s, h) != Held(f) && Target(s', h) == Held(f)
    requires forall i :: i != g && i != h ==> (Target(s', i) == Held(f) <==> Target(s, i) == Held(f))
    ensures |Holders(s', f)| == |Holders(s, f)|
  {
    assert Holders(s', f) == Holders(s, f) - {g} + {h};
  }

  // ---- the invariant ----------------------------------------------------------

  /** The count is the number of references. */
  ghost predicate RcOk(s: State, f: Frame) { Rc(s, f) == |Holders(s, f)| }

  /** A writable leaf is the only reference to its frame. */
  ghost predicate LeafOk(s: State, k: Key) {
    k in s.leaves ==> !(s.leaves[k].w && s.leaves[k].cow) && (s.leaves[k].w ==> Rc(s, s.leaves[k].frame) == 1)
  }

  /** The leaf a handler read is still there. */
  ghost predicate SeesLeaf(s: State, a: Space, v: Vpn, e: Leaf) {
    Key(a, v) in s.leaves && s.leaves[Key(a, v)] == e && e.cow
  }

  ghost predicate ChildOk(s: State, a: Space, child: Space, done: set<Vpn>) {
    && child != a && child in s.pc && s.pc[child] == Unborn
    && (forall v: Vpn :: Key(child, v) in s.leaves ==> v in done && !s.leaves[Key(child, v)].w)
    && (forall v: Vpn :: v in done ==> SameLeaf(s, Key(a, v), Key(child, v)))
  }

  ghost predicate SameLeaf(s: State, k: Key, j: Key) {
    k in s.leaves && j in s.leaves && s.leaves[k] == s.leaves[j]
  }

  ghost predicate PcOk(s: State, a: Space) {
    match At(s, a)
    case User => true
    case Unborn => true
    case GotLeaf(v, e) => SeesLeaf(s, a, v, e)
    case LastOne(v, e) => SeesLeaf(s, a, v, e) && Rc(s, e.frame) == 1
    case MustCopy(v, e) => SeesLeaf(s, a, v, e)
    case HasFrame(v, e, n) => SeesLeaf(s, a, v, e) && Rc(s, n) == 1
    case HasCopy(v, e, n) => SeesLeaf(s, a, v, e) && Rc(s, n) == 1 && Data(s, n) == Data(s, e.frame)
    case Installed(v, _) => Key(a, v) in s.leaves
    case Flushed(_) => true
    case Rewritten(vs) => forall v :: v in vs ==> Key(a, v) in s.leaves
    case Unmapped(v, _) => Key(a, v) !in s.leaves
    case Forking(child, done) => ChildOk(s, a, child, done)
    case Marked(child, done, v) =>
      ChildOk(s, a, child, done) && v !in done && Key(a, v) in s.leaves && !s.leaves[Key(a, v)].w
    case Undoing(child, left) =>
      && child != a && child in s.pc && s.pc[child] == Unborn
      && forall v: Vpn {:trigger Key(child, v)} :: Key(child, v) in s.leaves <==> v in left
  }

  /** A cached translation agrees with the leaf, except between a leaf change and
      its flush, when it may still name the frame in flight or be too permissive. A space
      no CPU has entered has none. */
  ghost predicate TlbOk(s: State, x: (Cpu, Key)) {
    x in s.tlb ==>
      var k, t := x.1, s.tlb[x];
      match At(s, k.space)
      case Installed(v, old_) =>
        if v == k.vpn then t.frame == old_ || (k in s.leaves && t.frame == s.leaves[k].frame) else Agrees(s, k, t)
      case Unmapped(v, old_) => if v == k.vpn then t.frame == old_ else Agrees(s, k, t)
      case Rewritten(vs) => if k.vpn in vs then k in s.leaves && t.frame == s.leaves[k].frame else Agrees(s, k, t)
      case Forking(_, _) => k in s.leaves && t.frame == s.leaves[k].frame
      case Marked(_, _, _) => k in s.leaves && t.frame == s.leaves[k].frame
      case Unborn => false
      case _ => Agrees(s, k, t)
  }

  ghost predicate Agrees(s: State, k: Key, t: Leaf) {
    k in s.leaves && t.frame == s.leaves[k].frame && (t.w ==> s.leaves[k].w)
  }

  predicate IsFork(p: Pc) { p.Forking? || p.Marked? || p.Undoing? }

  /** Two forks never fill the same child. */
  ghost predicate ForksApart(s: State, a: Space, b: Space) {
    a != b && IsFork(At(s, a)) && IsFork(At(s, b)) ==> At(s, a).child != At(s, b).child
  }

  ghost predicate Inv(s: State) {
    && (forall f :: RcOk(s, f))
    && (forall k :: LeafOk(s, k))
    && (forall a :: PcOk(s, a))
    && (forall x :: TlbOk(s, x))
    && (forall a, b :: ForksApart(s, a, b))
  }

  lemma TwoHolders(s: State, f: Frame, g: Holder, h: Holder)
    requires Inv(s) && g != h && Target(s, g) == Held(f) && Target(s, h) == Held(f)
    ensures Rc(s, f) >= 2
  {
    assert RcOk(s, f);
    var hs := Holders(s, f);
    assert g in hs && h in hs;
    assert |hs - {g}| == |hs| - 1 && h in hs - {g};
  }

  lemma HeldFrame(s: State, f: Frame, h: Holder)
    requires Inv(s) && Target(s, h) == Held(f)
    ensures Rc(s, f) >= 1
  {
    assert RcOk(s, f);
    assert h in Holders(s, f);
  }

  /** No cached translation outlives the frame it names. */
  lemma CachedFramesAreHeld(s: State, x: (Cpu, Key))
    requires Inv(s) && x in s.tlb
    ensures Rc(s, s.tlb[x].frame) >= 1
  {
    var k, f := x.1, s.tlb[x].frame;
    assert TlbOk(s, x);
    if k in s.leaves && f == s.leaves[k].frame { HeldFrame(s, f, ByLeaf(k)); }
    else { HeldFrame(s, f, ByOld(k.space)); }
  }

  // ---- steps that touch only the cached translations ---------------------------

  lemma TlbStep(s: State, s': State)
    requires Inv(s) && s' == s.(tlb := s'.tlb)
    requires forall x :: TlbOk(s', x)
    ensures Inv(s')
  {
    forall f ensures RcOk(s', f) { assert RcOk(s, f); SameHolders(s, s', f); }
    forall k ensures LeafOk(s', k) { assert LeafOk(s, k); }
    forall a ensures PcOk(s', a) { assert PcOk(s, a); }
    forall a, b ensures ForksApart(s', a, b) { assert ForksApart(s, a, b); }
  }

  lemma FillKeeps(s: State, c: Cpu, k: Key)
    requires Inv(s) && Enabled(s, Fill(c, k))
    ensures Inv(Apply(s, Fill(c, k)))
  {
    var s' := Apply(s, Fill(c, k));
    forall x ensures TlbOk(s', x) { assert TlbOk(s, x); assert PcOk(s, k.space); }
    TlbStep(s, s');
  }

  lemma EvictKeeps(s: State, c: Cpu, k: Key)
    requires Inv(s)
    ensures Inv(Apply(s, Evict(c, k)))
  {
    var s' := Apply(s, Evict(c, k));
    forall x ensures TlbOk(s', x) { assert TlbOk(s, x); }
    TlbStep(s, s');
  }

  // ---- a store through a cached translation -------------------------------------

  /** The frame a store reaches is referenced by the storing page alone. */
  lemma StoreIsPrivate(s: State, c: Cpu, k: Key, p: Page)
    requires Inv(s) && Enabled(s, Store(c, k, p))
    ensures k in s.leaves && s.leaves[k].frame == s.tlb[(c, k)].frame && s.leaves[k].w
    ensures forall h :: Target(s, h) == Held(s.tlb[(c, k)].frame) ==> h == ByLeaf(k)
  {
    assert TlbOk(s, (c, k)) && LeafOk(s, k);
    var f := s.tlb[(c, k)].frame;
    forall h | Target(s, h) == Held(f) ensures h == ByLeaf(k) {
      if h != ByLeaf(k) { TwoHolders(s, f, h, ByLeaf(k)); }
    }
  }

  lemma StoreRc(s: State, c: Cpu, k: Key, p: Page, f: Frame)
    requires Inv(s) && Enabled(s, Store(c, k, p))
    ensures RcOk(Apply(s, Store(c, k, p)), f)
  {
    var s' := Apply(s, Store(c, k, p));
    StoreIsPrivate(s, c, k, p);
    assert RcOk(s, f); SameHolders(s, s', f);
  }

  lemma StorePc(s: State, c: Cpu, k: Key, p: Page, b: Space)
    requires Inv(s) && Enabled(s, Store(c, k, p))
    ensures PcOk(Apply(s, Store(c, k, p)), b)
  {
    var s' := Apply(s, Store(c, k, p));
    StoreIsPrivate(s, c, k, p);
    assert PcOk(s, b);
    if At(s, b).HasCopy? {
      assert Target(s, ByNew(b)) == Held(At(s, b).new_);
      assert Target(s, ByLeaf(Key(b, At(s, b).v))) == Held(At(s, b).e.frame);
    }
  }

  lemma StoreKeeps(s: State, c: Cpu, k: Key, p: Page)
    requires Inv(s) && Enabled(s, Store(c, k, p))
    ensures Inv(Apply(s, Store(c, k, p)))
  {
    var s' := Apply(s, Store(c, k, p));
    StoreIsPrivate(s, c, k, p);
    forall f ensures RcOk(s', f) { StoreRc(s, c, k, p, f); }
    forall j ensures LeafOk(s', j) { assert LeafOk(s, j); }
    forall b ensures PcOk(s', b) { StorePc(s, c, k, p, b); }
    forall x ensures TlbOk(s', x) { assert TlbOk(s, x); }
    forall a, b ensures ForksApart(s', a, b) { assert ForksApart(s, a, b); }
  }

  // ---- steps of one thread that move no reference --------------------------------

  /** A thread moves on without touching leaves, counts or contents. */
  ghost predicate Moves(s: State, s': State, a: Space) {
    && a in s'.pc && s' == s.(pc := s.pc[a := s'.pc[a]])
    && OldOf(At(s', a)) == OldOf(At(s, a)) && NewOf(At(s', a)) == NewOf(At(s, a))
    && !IsFork(At(s, a)) && !IsFork(At(s', a)) && At(s, a) != Unborn
  }

  lemma MovesRc(s: State, s': State, a: Space, f: Frame)
    requires Moves(s, s', a) && RcOk(s, f)
    ensures RcOk(s', f)
  {
    SameHolders(s, s', f);
  }

  lemma MovesPc(s: State, s': State, a: Space, b: Space)
    requires Moves(s, s', a) && PcOk(s, b) && b != a
    ensures PcOk(s', b)
  {}

  lemma PcStep(s: State, s': State, a: Space)
    requires Inv(s) && Moves(s, s', a) && PcOk(s', a)
    requires forall c, v :: TlbOk(s', (c, Key(a, v)))
    ensures Inv(s')
  {
    forall f ensures RcOk(s', f) { assert RcOk(s, f); MovesRc(s, s', a, f); }
    forall j ensures LeafOk(s', j) { assert LeafOk(s, j); }
    forall b ensures PcOk(s', b) { assert PcOk(s, b); if b != a { MovesPc(s, s', a, b); } }
    forall x ensures TlbOk(s', x) {
      assert TlbOk(s, x);
      if x.1.space == a { assert x == (x.0, Key(a, x.1.vpn)); }
    }
    forall b, c ensures ForksApart(s', b, c) { assert ForksApart(s, b, c); }
  }

  lemma FaultKeeps(s: State, k: Key)
    requires Inv(s) && Enabled(s, Fault(k))
    ensures Inv(Apply(s, Fault(k)))
  {
    var s' := Apply(s, Fault(k));
    if s' != s {
      assert LeafOk(s, k);
      forall c, v ensures TlbOk(s', (c, Key(k.space, v))) { assert TlbOk(s, (c, Key(k.space, v))); }
      PcStep(s, s', k.space);
    }
  }

  lemma ReadCountKeeps(s: State, a: Space)
    requires Inv(s) && Enabled(s, ReadCount(a))
    ensures Inv(Apply(s, ReadCount(a)))
  {
    var s' := Apply(s, ReadCount(a));
    assert PcOk(s, a);
    HeldFrame(s, At(s, a).e.frame, ByLeaf(Key(a, At(s, a).v)));
    forall c, v ensures TlbOk(s', (c, Key(a, v))) { assert TlbOk(s, (c, Key(a, v))); }
    PcStep(s, s', a);
  }

  lemma NoFrameKeeps(s: State, a: Space)
    requires Inv(s) && Enabled(s, NoFrame(a))
    ensures Inv(Apply(s, NoFrame(a)))
  {
    var s' := Apply(s, NoFrame(a));
    forall c, v ensures TlbOk(s', (c, Key(a, v))) { assert TlbOk(s, (c, Key(a, v))); }
    PcStep(s, s', a);
  }

  lemma FlushKeeps(s: State, a: Space)
    requires Inv(s) && Enabled(s, Flush(a))
    ensures Inv(Apply(s, Flush(a)))
  {
    var s' := Apply(s, Flush(a));
    var s1 := s.(tlb := s'.tlb);
    forall x ensures TlbOk(s1, x) { assert TlbOk(s, x); }
    TlbStep(s, s1);
    forall c, v ensures TlbOk(s', (c, Key(a, v))) { assert TlbOk(s, (c, Key(a, v))); }
    PcStep(s1, s', a);
  }

  // ---- steps that move references -------------------------------------------------

  lemma TakeFrameRc(s: State, a: Space, n: Frame, f: Frame)
    requires Inv(s) && Enabled(s, TakeFrame(a, n))
    ensures RcOk(Apply(s, TakeFrame(a, n)), f)
  {
    var s' := Apply(s, TakeFrame(a, n));
    assert RcOk(s, n);
    assert forall h :: Target(s, h) != Held(n) by {
      forall h ensures Target(s, h) != Held(n) { assert h !in Holders(s, n); }
    }
    assert RcOk(s, f);
    if f == n { AddHolder(s, s', f, ByNew(a)); } else { SameHolders(s, s', f); }
  }

  lemma TakeFramePc(s: State, a: Space, n: Frame, b: Space)
    requires Inv(s) && Enabled(s, TakeFrame(a, n))
    ensures PcOk(Apply(s, TakeFrame(a, n)), b)
  {
    var s' := Apply(s, TakeFrame(a, n));
    assert RcOk(s, n);
    assert forall h :: Target(s, h) != Held(n) by {
      forall h ensures Target(s, h) != Held(n) { assert h !in Holders(s, n); }
    }
    assert PcOk(s, b) && Target(s, ByNew(b)) != Held(n);
    if At(s, b).LastOne? { assert Target(s, ByLeaf(Key(b, At(s, b).v))) != Held(n); }
  }

  lemma TakeFrameKeeps(s: State, a: Space, n: Frame)
    requires Inv(s) && Enabled(s, TakeFrame(a, n))
    ensures Inv(Apply(s, TakeFrame(a, n)))
  {
    var s' := Apply(s, TakeFrame(a, n));
    assert RcOk(s, n);
    assert forall h :: Target(s, h) != Held(n) by {
      forall h ensures Target(s, h) != Held(n) { assert h !in Holders(s, n); }
    }
    forall f ensures RcOk(s', f) { TakeFrameRc(s, a, n, f); }
    forall j ensures LeafOk(s', j) { assert LeafOk(s, j); assert Target(s, ByLeaf(j)) != Held(n); }
    forall b ensures PcOk(s', b) { TakeFramePc(s, a, n, b); }
    forall x ensures TlbOk(s', x) { assert TlbOk(s, x); }
    forall b, c ensures ForksApart(s', b, c) { assert ForksApart(s, b, c); }
  }

  lemma CopyPageRc(s: State, a: Space, f: Frame)
    requires Inv(s) && Enabled(s, CopyPage(a))
    ensures RcOk(Apply(s, CopyPage(a)), f)
  {
    var s' := Apply(s, CopyPage(a));
    var n, e, k := At(s, a).new_, At(s, a).e, Key(a, At(s, a).v);
    assert PcOk(s, a);
    assert n != e.frame by { if n == e.frame { TwoHolders(s, n, ByNew(a), ByLeaf(k)); } }
    assert RcOk(s, f); SameHolders(s, s', f);
  }

  lemma CopyPagePc(s: State, a: Space, b: Space)
    requires Inv(s) && Enabled(s, CopyPage(a))
    ensures PcOk(Apply(s, CopyPage(a)), b)
  {
    var s' := Apply(s, CopyPage(a));
    var n, e, k := At(s, a).new_, At(s, a).e, Key(a, At(s, a).v);
    assert PcOk(s, a);
    assert n != e.frame by { if n == e.frame { TwoHolders(s, n, ByNew(a), ByLeaf(k)); } }
    assert PcOk(s, b);
    if b != a && At(s, b).HasCopy? {
      if At(s, b).new_ == n { TwoHolders(s, n, ByNew(a), ByNew(b)); }
      if At(s, b).e.frame == n { TwoHolders(s, n, ByNew(a), ByLeaf(Key(b, At(s, b).v))); }
    }
  }

  lemma CopyPageKeeps(s: State, a: Space)
    requires Inv(s) && Enabled(s, CopyPage(a))
    ensures Inv(Apply(s, CopyPage(a)))
  {
    var s' := Apply(s, CopyPage(a));
    var n, e, k := At(s, a).new_, At(s, a).e, Key(a, At(s, a).v);
    assert PcOk(s, a);
    assert n != e.frame by { if n == e.frame { TwoHolders(s, n, ByNew(a), ByLeaf(k)); } }
    forall f ensures RcOk(s', f) { CopyPageRc(s, a, f); }
    forall j ensures LeafOk(s', j) { assert LeafOk(s, j); }
    forall b ensures PcOk(s', b) { CopyPagePc(s, a, b); }
    forall x ensures TlbOk(s', x) { assert TlbOk(s, x); }
    forall b, c ensures ForksApart(s', b, c) { assert ForksApart(s, b, c); }
  }

  lemma LetGoRc(s: State, a: Space, f: Frame)
    requires Inv(s) && Enabled(s, LetGo(a))
    ensures RcOk(Apply(s, LetGo(a)), f)
  {
    var s' := Apply(s, LetGo(a));
    var old_ := At(s, a).old_;
    HeldFrame(s, old_, ByOld(a));
    assert RcOk(s, f);
    if f == old_ { DropHolder(s, s', f, ByOld(a)); } else { SameHolders(s, s', f); }
  }

  lemma LetGoPc(s: State, a: Space, b: Space)
    requires Inv(s) && Enabled(s, LetGo(a))
    ensures PcOk(Apply(s, LetGo(a)), b)
  {
    var s' := Apply(s, LetGo(a));
    var old_ := At(s, a).old_;
    HeldFrame(s, old_, ByOld(a));
    assert PcOk(s, b);
    if NewOf(At(s, b)) == Held(old_) { TwoHolders(s, old_, ByOld(a), ByNew(b)); }
    if At(s, b).LastOne? && At(s, b).e.frame == old_ { TwoHolders(s, old_, ByOld(a), ByLeaf(Key(b, At(s, b).v))); }
  }

  lemma LetGoKeeps(s: State, a: Space)
    requires Inv(s) && Enabled(s, LetGo(a))
    ensures Inv(Apply(s, LetGo(a)))
  {
    var s' := Apply(s, LetGo(a));
    var old_ := At(s, a).old_;
    HeldFrame(s, old_, ByOld(a));
    forall f ensures RcOk(s', f) { LetGoRc(s, a, f); }
    forall j ensures LeafOk(s', j) {
      assert LeafOk(s, j);
      if j in s.leaves && s.leaves[j].frame == old_ { TwoHolders(s, old_, ByOld(a), ByLeaf(j)); }
    }
    forall b ensures PcOk(s', b) { LetGoPc(s, a, b); }
    forall x ensures TlbOk(s', x) { assert TlbOk(s, x); }
    forall b, c ensures ForksApart(s', b, c) { assert ForksApart(s, b, c); }
  }

  lemma InstallRc(s: State, a: Space, f: Frame)
    requires Inv(s) && Enabled(s, Install(a))
    ensures RcOk(Apply(s, Install(a)), f)
  {
    var s' := Apply(s, Install(a));
    var n, e, k := At(s, a).new_, At(s, a).e, Key(a, At(s, a).v);
    assert PcOk(s, a) && RcOk(s, f);
    if n == e.frame { TwoHolders(s, n, ByNew(a), ByLeaf(k)); }
    if f == n { SwapHolder(s, s', f, ByNew(a), ByLeaf(k)); }
    else if f == e.frame { SwapHolder(s, s', f, ByLeaf(k), ByOld(a)); }
    else { SameHolders(s, s', f); }
  }

  lemma InstallKeeps(s: State, a: Space)
    requires Inv(s) && Enabled(s, Install(a))
    ensures Inv(Apply(s, Install(a)))
  {
    var s' := Apply(s, Install(a));
    assert PcOk(s, a);
    forall f ensures RcOk(s', f) { InstallRc(s, a, f); }
    forall j ensures LeafOk(s', j) { assert LeafOk(s, j); }
    forall b ensures PcOk(s', b) { assert PcOk(s, b) && ForksApart(s, a, b); }
    forall x ensures TlbOk(s', x) { assert TlbOk(s, x); }
    forall b, c ensures ForksApart(s', b, c) { assert ForksApart(s, b, c); }
  }

  /** Rewriting the flags of one's own leaf, with the flush still to come. */
  lemma RewriteRc(s: State, s': State, k: Key, f: Frame)
    requires Inv(s) && k in s.leaves && k in s'.leaves
    requires At(s, k.space) == User || At(s, k.space).Rewritten? || At(s, k.space).LastOne?
    requires s' == SetPc(s.(leaves := s.leaves[k := s'.leaves[k]]), k.space,
                         Rewritten(Changed(At(s, k.space)) + {k.vpn}))
    requires s'.leaves[k].frame == s.leaves[k].frame && LeafOk(s', k)
    requires At(s, k.space).LastOne? ==> At(s, k.space).v == k.vpn
    ensures RcOk(s', f)
  {
    assert RcOk(s, f); SameHolders(s, s', f);
  }

  lemma RewritePc(s: State, s': State, k: Key, b: Space)
    requires Inv(s) && k in s.leaves && k in s'.leaves
    requires At(s, k.space) == User || At(s, k.space).Rewritten? || At(s, k.space).LastOne?
    requires s' == SetPc(s.(leaves := s.leaves[k := s'.leaves[k]]), k.space,
                         Rewritten(Changed(At(s, k.space)) + {k.vpn}))
    requires s'.leaves[k].frame == s.leaves[k].frame && LeafOk(s', k)
    requires At(s, k.space).LastOne? ==> At(s, k.space).v == k.vpn
    ensures PcOk(s', b)
  {
    assert PcOk(s, b);
  }

  lemma RewriteKeeps(s: State, s': State, k: Key)
    requires Inv(s) && k in s.leaves && k in s'.leaves
    requires At(s, k.space) == User || At(s, k.space).Rewritten? || At(s, k.space).LastOne?
    requires s' == SetPc(s.(leaves := s.leaves[k := s'.leaves[k]]), k.space,
                         Rewritten(Changed(At(s, k.space)) + {k.vpn}))
    requires s'.leaves[k].frame == s.leaves[k].frame && LeafOk(s', k)
    requires At(s, k.space).LastOne? ==> At(s, k.space).v == k.vpn
    ensures Inv(s')
  {
    forall f ensures RcOk(s', f) { RewriteRc(s, s', k, f); }
    forall j ensures LeafOk(s', j) { assert LeafOk(s, j); }
    forall b ensures PcOk(s', b) { RewritePc(s, s', k, b); }
    forall x ensures TlbOk(s', x) { assert TlbOk(s, x); }
    forall b, c ensures ForksApart(s', b, c) { assert ForksApart(s, b, c); }
  }

  lemma InstallLastKeeps(s: State, a: Space)
    requires Inv(s) && Enabled(s, InstallLast(a))
    ensures Inv(Apply(s, InstallLast(a)))
  {
    assert PcOk(s, a);
    assert Changed(At(s, a)) + {At(s, a).v} == {At(s, a).v};
    RewriteKeeps(s, Apply(s, InstallLast(a)), Key(a, At(s, a).v));
  }

  lemma ProtectKeeps(s: State, k: Key, w: bool)
    requires Inv(s) && Enabled(s, Protect(k, w))
    ensures Inv(Apply(s, Protect(k, w)))
  {
    HeldFrame(s, s.leaves[k].frame, ByLeaf(k));
    assert LeafOk(s, k);
    RewriteKeeps(s, Apply(s, Protect(k, w)), k);
  }

  lemma MapNewRc(s: State, k: Key, n: Frame, p: Page, w: bool, f: Frame)
    requires Inv(s) && Enabled(s, MapNew(k, n, p, w))
    ensures RcOk(Apply(s, MapNew(k, n, p, w)), f)
  {
    var s' := Apply(s, MapNew(k, n, p, w));
    assert RcOk(s, n);
    assert forall h :: Target(s, h) != Held(n) by {
      forall h ensures Target(s, h) != Held(n) { assert h !in Holders(s, n); }
    }
    assert RcOk(s, f);
    if f == n { AddHolder(s, s', f, ByLeaf(k)); } else { SameHolders(s, s', f); }
  }

  lemma MapNewPc(s: State, k: Key, n: Frame, p: Page, w: bool, b: Space)
    requires Inv(s) && Enabled(s, MapNew(k, n, p, w))
    ensures PcOk(Apply(s, MapNew(k, n, p, w)), b)
  {
    var s' := Apply(s, MapNew(k, n, p, w));
    assert RcOk(s, n);
    assert forall h :: Target(s, h) != Held(n) by {
      forall h ensures Target(s, h) != Held(n) { assert h !in Holders(s, n); }
    }
    assert PcOk(s, b) && Target(s, ByNew(b)) != Held(n);
    if At(s, b).LastOne? || At(s, b).HasCopy? { assert Target(s, ByLeaf(Key(b, At(s, b).v))) != Held(n); }
  }

  lemma MapNewKeeps(s: State, k: Key, n: Frame, p: Page, w: bool)
    requires Inv(s) && Enabled(s, MapNew(k, n, p, w))
    ensures Inv(Apply(s, MapNew(k, n, p, w)))
  {
    var s' := Apply(s, MapNew(k, n, p, w));
    assert RcOk(s, n);
    assert forall h :: Target(s, h) != Held(n) by {
      forall h ensures Target(s, h) != Held(n) { assert h !in Holders(s, n); }
    }
    forall f ensures RcOk(s', f) { MapNewRc(s, k, n, p, w, f); }
    forall j ensures LeafOk(s', j) { assert LeafOk(s, j); assert Target(s, ByLeaf(j)) != Held(n); }
    forall b ensures PcOk(s', b) { MapNewPc(s, k, n, p, w, b); }
    forall x ensures TlbOk(s', x) { assert TlbOk(s, x); }
    forall b, c ensures ForksApart(s', b, c) { assert ForksApart(s, b, c); }
  }

  lemma UnmapRc(s: State, k: Key, f: Frame)
    requires Inv(s) && Enabled(s, Unmap(k))
    ensures RcOk(Apply(s, Unmap(k)), f)
  {
    var s' := Apply(s, Unmap(k));
    assert RcOk(s, f);
    if f == s.leaves[k].frame { SwapHolder(s, s', f, ByLeaf(k), ByOld(k.space)); } else { SameHolders(s, s', f); }
  }

  lemma UnmapPc(s: State, k: Key, b: Space)
    requires Inv(s) && Enabled(s, Unmap(k))
    ensures PcOk(Apply(s, Unmap(k)), b)
  {
    var s' := Apply(s, Unmap(k));
    assert PcOk(s, b);
  }

  lemma UnmapKeeps(s: State, k: Key)
    requires Inv(s) && Enabled(s, Unmap(k))
    ensures Inv(Apply(s, Unmap(k)))
  {
    var s' := Apply(s, Unmap(k));
    forall f ensures RcOk(s', f) { UnmapRc(s, k, f); }
    forall j ensures LeafOk(s', j) { assert LeafOk(s, j); }
    forall b ensures PcOk(s', b) { UnmapPc(s, k, b); }
    forall x ensures TlbOk(s', x) { assert TlbOk(s, x); }
    forall b, c ensures ForksApart(s', b, c) { assert ForksApart(s, b, c); }
  }

  // ---- fork -------------------------------------------------------------------------

  lemma ForkBeginRc(s: State, a: Space, child: Space, f: Frame)
    requires Inv(s) && Enabled(s, ForkBegin(a, child))
    ensures RcOk(Apply(s, ForkBegin(a, child)), f)
  {
    var s' := Apply(s, ForkBegin(a, child));
    assert RcOk(s, f); SameHolders(s, s', f);
  }

  lemma ForkBeginPc(s: State, a: Space, child: Space, b: Space)
    requires Inv(s) && Enabled(s, ForkBegin(a, child))
    ensures PcOk(Apply(s, ForkBegin(a, child)), b)
  {
    var s' := Apply(s, ForkBegin(a, child));
    assert PcOk(s, b);
  }

  lemma ForkBeginKeeps(s: State, a: Space, child: Space)
    requires Inv(s) && Enabled(s, ForkBegin(a, child))
    ensures Inv(Apply(s, ForkBegin(a, child)))
  {
    var s' := Apply(s, ForkBegin(a, child));
    forall f ensures RcOk(s', f) { ForkBeginRc(s, a, child, f); }
    forall j ensures LeafOk(s', j) { assert LeafOk(s, j); }
    forall b ensures PcOk(s', b) { ForkBeginPc(s, a, child, b); }
    forall x ensures TlbOk(s', x) { assert TlbOk(s, x); }
    forall b, c ensures ForksApart(s', b, c) { assert ForksApart(s, b, c) && PcOk(s, b) && PcOk(s, c); }
  }

  lemma ForkMarkRc(s: State, a: Space, v: Vpn, f: Frame)
    requires Inv(s) && Enabled(s, ForkMark(a, v))
    ensures RcOk(Apply(s, ForkMark(a, v)), f)
  {
    var s' := Apply(s, ForkMark(a, v));
    assert PcOk(s, a);
    assert RcOk(s, f); SameHolders(s, s', f);
  }

  lemma ForkMarkPc(s: State, a: Space, v: Vpn, b: Space)
    requires Inv(s) && Enabled(s, ForkMark(a, v))
    ensures PcOk(Apply(s, ForkMark(a, v)), b)
  {
    var s' := Apply(s, ForkMark(a, v));
    assert PcOk(s, a);
    assert PcOk(s, b) && ForksApart(s, a, b);
  }

  lemma ForkMarkKeeps(s: State, a: Space, v: Vpn)
    requires Inv(s) && Enabled(s, ForkMark(a, v))
    ensures Inv(Apply(s, ForkMark(a, v)))
  {
    var s' := Apply(s, ForkMark(a, v));
    assert PcOk(s, a);
    forall f ensures RcOk(s', f) { ForkMarkRc(s, a, v, f); }
    forall j ensures LeafOk(s', j) { assert LeafOk(s, j); }
    forall b ensures PcOk(s', b) { ForkMarkPc(s, a, v, b); }
    forall x ensures TlbOk(s', x) { assert TlbOk(s, x); }
    forall b, c ensures ForksApart(s', b, c) { assert ForksApart(s, b, c); }
  }

  lemma ForkShareRc(s: State, a: Space, f: Frame)
    requires Inv(s) && Enabled(s, ForkShare(a))
    ensures RcOk(Apply(s, ForkShare(a)), f)
  {
    var s' := Apply(s, ForkShare(a));
    assert PcOk(s, a);
    var p := At(s, a);
    var k, ck := Key(a, p.v), Key(p.child, p.v);
    var g := s.leaves[k].frame;
    assert ck !in s.leaves;
    assert RcOk(s, f);
    if f == g { AddHolder(s, s', f, ByLeaf(ck)); } else { SameHolders(s, s', f); }
  }

  lemma ForkSharePc(s: State, a: Space, b: Space)
    requires Inv(s) && Enabled(s, ForkShare(a))
    ensures PcOk(Apply(s, ForkShare(a)), b)
  {
    var s' := Apply(s, ForkShare(a));
    assert PcOk(s, a);
    var p := At(s, a);
    var k, ck := Key(a, p.v), Key(p.child, p.v);
    var g := s.leaves[k].frame;
    assert ck !in s.leaves;
    assert PcOk(s, b) && ForksApart(s, a, b);
    if NewOf(At(s, b)) == Held(g) { TwoHolders(s, g, ByLeaf(k), ByNew(b)); }
    if At(s, b).LastOne? && At(s, b).e.frame == g { TwoHolders(s, g, ByLeaf(k), ByLeaf(Key(b, At(s, b).v))); }
  }

  lemma ForkShareKeeps(s: State, a: Space)
    requires Inv(s) && Enabled(s, ForkShare(a))
    ensures Inv(Apply(s, ForkShare(a)))
  {
    var s' := Apply(s, ForkShare(a));
    assert PcOk(s, a);
    var p := At(s, a);
    var k, ck := Key(a, p.v), Key(p.child, p.v);
    var g := s.leaves[k].frame;
    assert ck !in s.leaves;
    forall f ensures RcOk(s', f) { ForkShareRc(s, a, f); }
    forall j ensures LeafOk(s', j) {
      assert LeafOk(s, j) && LeafOk(s, k);
      if j in s.leaves && j != k && s.leaves[j].frame == g { TwoHolders(s, g, ByLeaf(k), ByLeaf(j)); }
    }
    forall b ensures PcOk(s', b) { ForkSharePc(s, a, b); }
    forall x ensures TlbOk(s', x) { assert TlbOk(s, x); }
    forall b, c ensures ForksApart(s', b, c) { assert ForksApart(s, b, c); }
  }

  lemma ForkEndRc(s: State, a: Space, f: Frame)
    requires Inv(s) && Enabled(s, ForkEnd(a))
    ensures RcOk(Apply(s, ForkEnd(a)), f)
  {
    var s' := Apply(s, ForkEnd(a));
    assert PcOk(s, a);
    assert RcOk(s, f); SameHolders(s, s', f);
  }

  lemma ForkEndPc(s: State, a: Space, b: Space)
    requires Inv(s) && Enabled(s, ForkEnd(a))
    ensures PcOk(Apply(s, ForkEnd(a)), b)
  {
    var s' := Apply(s, ForkEnd(a));
    assert PcOk(s, a);
    assert PcOk(s, b) && ForksApart(s, a, b);
  }

  lemma ForkEndKeeps(s: State, a: Space)
    requires Inv(s) && Enabled(s, ForkEnd(a))
    ensures Inv(Apply(s, ForkEnd(a)))
  {
    var s' := Apply(s, ForkEnd(a));
    assert PcOk(s, a);
    forall f ensures RcOk(s', f) { ForkEndRc(s, a, f); }
    forall j ensures LeafOk(s', j) { assert LeafOk(s, j); }
    forall b ensures PcOk(s', b) { ForkEndPc(s, a, b); }
    forall x ensures TlbOk(s', x) { assert TlbOk(s, x); }
    forall b, c ensures ForksApart(s', b, c) { assert ForksApart(s, b, c); }
  }

  // ---- a fork that fails --------------------------------------------------------------

  lemma ForkFailPc(s: State, a: Space, b: Space)
    requires Inv(s) && Enabled(s, ForkFail(a))
    ensures PcOk(Apply(s, ForkFail(a)), b)
  {
    var s' := Apply(s, ForkFail(a));
    assert PcOk(s, a);
    assert PcOk(s, b) && ForksApart(s, a, b);
    if b == a {
      forall v: Vpn | v in At(s, a).done ensures Key(At(s, a).child, v) in s.leaves {
        assert SameLeaf(s, Key(a, v), Key(At(s, a).child, v));
      }
    }
  }

  lemma ForkFailKeeps(s: State, a: Space)
    requires Inv(s) && Enabled(s, ForkFail(a))
    ensures Inv(Apply(s, ForkFail(a)))
  {
    var s' := Apply(s, ForkFail(a));
    forall f ensures RcOk(s', f) { assert RcOk(s, f); SameHolders(s, s', f); }
    forall j ensures LeafOk(s', j) { assert LeafOk(s, j); }
    forall b ensures PcOk(s', b) { ForkFailPc(s, a, b); }
    forall x ensures TlbOk(s', x) { assert TlbOk(s, x); }
    forall b, c ensures ForksApart(s', b, c) { assert ForksApart(s, b, c); }
  }

  lemma ForkDropRc(s: State, a: Space, v: Vpn, f: Frame)
    requires Inv(s) && Enabled(s, ForkDrop(a, v))
    ensures RcOk(Apply(s, ForkDrop(a, v)), f)
  {
    var s' := Apply(s, ForkDrop(a, v));
    assert PcOk(s, a);
    var k := Key(At(s, a).child, v);
    HeldFrame(s, s.leaves[k].frame, ByLeaf(k));
    assert RcOk(s, f);
    if f == s.leaves[k].frame { DropHolder(s, s', f, ByLeaf(k)); } else { SameHolders(s, s', f); }
  }

  lemma ForkDropPc(s: State, a: Space, v: Vpn, b: Space)
    requires Inv(s) && Enabled(s, ForkDrop(a, v))
    ensures PcOk(Apply(s, ForkDrop(a, v)), b)
  {
    var s' := Apply(s, ForkDrop(a, v));
    assert PcOk(s, a) && PcOk(s, b) && ForksApart(s, a, b);
    var k := Key(At(s, a).child, v);
    var g := s.leaves[k].frame;
    HeldFrame(s, g, ByLeaf(k));
    if NewOf(At(s, b)) == Held(g) { TwoHolders(s, g, ByLeaf(k), ByNew(b)); }
    if At(s, b).LastOne? && At(s, b).e.frame == g { TwoHolders(s, g, ByLeaf(k), ByLeaf(Key(b, At(s, b).v))); }
  }

  lemma ForkDropKeeps(s: State, a: Space, v: Vpn)
    requires Inv(s) && Enabled(s, ForkDrop(a, v))
    ensures Inv(Apply(s, ForkDrop(a, v)))
  {
    var s' := Apply(s, ForkDrop(a, v));
    assert PcOk(s, a);
    var k := Key(At(s, a).child, v);
    var g := s.leaves[k].frame;
    HeldFrame(s, g, ByLeaf(k));
    forall f ensures RcOk(s', f) { ForkDropRc(s, a, v, f); }
    forall j ensures LeafOk(s', j) {
      assert LeafOk(s, j);
      if j in s.leaves && j != k && s.leaves[j].frame == g { TwoHolders(s, g, ByLeaf(k), ByLeaf(j)); }
    }
    forall b ensures PcOk(s', b) { ForkDropPc(s, a, v, b); }
    forall x ensures TlbOk(s', x) { assert TlbOk(s, x); }
    forall b, c ensures ForksApart(s', b, c) { assert ForksApart(s, b, c); }
  }

  lemma ForkUndonePc(s: State, a: Space, b: Space)
    requires Inv(s) && Enabled(s, ForkUndone(a))
    ensures PcOk(Apply(s, ForkUndone(a)), b)
  {
    assert PcOk(s, a) && PcOk(s, b) && ForksApart(s, a, b);
  }

  lemma ForkUndoneKeeps(s: State, a: Space)
    requires Inv(s) && Enabled(s, ForkUndone(a))
    ensures Inv(Apply(s, ForkUndone(a)))
  {
    var s' := Apply(s, ForkUndone(a));
    assert PcOk(s, a);
    forall f ensures RcOk(s', f) { assert RcOk(s, f); SameHolders(s, s', f); }
    forall j ensures LeafOk(s', j) { assert LeafOk(s, j); }
    forall b ensures PcOk(s', b) { ForkUndonePc(s, a, b); }
    forall x ensures TlbOk(s', x) { assert TlbOk(s, x); }
    forall b, c ensures ForksApart(s', b, c) { assert ForksApart(s, b, c); }
  }
}
