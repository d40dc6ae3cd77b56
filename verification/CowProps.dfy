/** Copy-on-write refines eager copying, and reference counts are exact. */
module CowProps {
  import opened Prelude
  import P = PmmSpec
  import PP = PmmProps
  import opened CowSpec
  import E = Eager

  /** The leaves that map a frame. */
  ghost function LeavesOn(leaves: map<Key, Leaf>, f: int): set<Key> {
    set k | k in leaves && leaves[k].frame == f
  }

  /** The count of a frame is the number of leaves that map it, so that none is lost and
      none left over; a frame the kernel keeps for itself has one and no leaf. */
  ghost predicate CountOk(m: Machine, f: int)
    requires Shaped(m)
  {
    || f in m.dev
    || (if f in m.kept then GetRef(m, f) == 1 && LeavesOn(m.leaves, f) == {}
        else GetRef(m, f) == |LeavesOn(m.leaves, f)|)
  }

  /** Only the sole mapper of a frame may write it; device leaves are never marked. */
  ghost predicate LeafOk(m: Machine, e: Leaf)
    requires Shaped(m)
  {
    && !(e.w && e.cow)
    && (e.frame in m.dev ==> !e.cow)
    && (e.w && e.frame !in m.dev ==> GetRef(m, e.frame) == 1)
  }

  ghost predicate DevOk(m: Machine, f: int)
    requires Shaped(m)
  {
    f in m.dev ==> GetRef(m, f) == 0 && (P.Managed(m.pmm, f) ==> m.pmm.used[f])
  }

  ghost predicate Inv(m: Machine) {
    && Shaped(m) && PP.Exact(m.pmm)
    && (forall f {:trigger DevOk(m, f)} :: DevOk(m, f))
    && (forall f {:trigger CountOk(m, f)} :: CountOk(m, f))
    && (forall k {:trigger LeafOk(m, m.leaves[k])} :: k in m.leaves ==> LeafOk(m, m.leaves[k]))
  }

  ghost function ViewOf(m: Machine, e: Leaf): E.View {
    if e.frame in m.dev then E.Device(e.frame, e.w || e.cow, e.x)
    else E.Private(Contents(m.mem, e.frame), e.w || e.cow, e.x)
  }

  /** What the address spaces see. */
  ghost function Abs(m: Machine): E.World {
    E.World(map k | k in m.leaves :: ViewOf(m, m.leaves[k]),
            map f | f in m.dev :: Contents(m.mem, f))
  }

  /** Rewriting one leaf, and only frames nobody else maps, changes one view. */
  lemma AbsUpdate(m: Machine, m': Machine, k: Key)
    requires k in m'.leaves && m'.leaves == m.leaves[k := m'.leaves[k]] && m'.dev == m.dev
    requires forall j :: j in m.leaves && j != k ==>
               Contents(m'.mem, m.leaves[j].frame) == Contents(m.mem, m.leaves[j].frame)
    requires forall f :: f in m.dev ==> Contents(m'.mem, f) == Contents(m.mem, f)
    ensures Abs(m') == E.World(Abs(m).pages[k := ViewOf(m', m'.leaves[k])], Abs(m).devices)
  {}

  // ---- how the set of mappers changes ----------------------------------------

  lemma LeavesOnSet(leaves: map<Key, Leaf>, k: Key, e: Leaf, f: int)
    ensures var l2 := leaves[k := e];
            LeavesOn(l2, f) == if e.frame == f then LeavesOn(leaves, f) + {k} else LeavesOn(leaves, f) - {k}
  {}

  lemma LeavesOnShare(leaves: map<Key, Leaf>, parent: Key, child: Key, e: Leaf, f: int)
    requires parent in leaves && child !in leaves && e.frame == leaves[parent].frame
    ensures LeavesOn(leaves[parent := e][child := e], f)
         == if f == e.frame then LeavesOn(leaves, f) + {child} else LeavesOn(leaves, f)
  {}

  lemma LeavesOnDrop(leaves: map<Key, Leaf>, k: Key, f: int)
    ensures LeavesOn(leaves - {k}, f) == LeavesOn(leaves, f) - {k}
  {}

  /** A mapped frame is in use, so a new frame is nobody's. */
  lemma MappedIsUsed(m: Machine, k: Key)
    requires Inv(m) && k in m.leaves && m.leaves[k].frame !in m.dev
    ensures P.Managed(m.pmm, m.leaves[k].frame) && m.pmm.used[m.leaves[k].frame] && GetRef(m, m.leaves[k].frame) > 0
  {
    assert CountOk(m, m.leaves[k].frame);
    assert k in LeavesOn(m.leaves, m.leaves[k].frame);
  }

  lemma FreshFrame(m: Machine)
    requires Inv(m) && AllocFrame(m).Some?
    ensures var (m1, f) := AllocFrame(m).value;
            && Shaped(m1) && PP.Exact(m1.pmm) && P.Managed(m1.pmm, f) && f !in m.dev
            && |m1.pmm.used| == |m.pmm.used|
            && m1.pmm.rc == m.pmm.rc[f := 1] && m1.pmm.used == m.pmm.used[f := true]
            && LeavesOn(m.leaves, f) == {}
  {
    var f := P.ClaimStart(m.pmm, 1).value;
    PP.ClaimExact(m.pmm, 1, -1);
    PP.ClaimComplete(m.pmm, 1);
    var m1 := AllocFrame(m).value.0;
    assert !m.pmm.used[f];
    assert m1.pmm.rc == m.pmm.rc[f := 1];
    assert m1.pmm.used == m.pmm.used[f := true];
    assert DevOk(m, f);
    forall k | k in m.leaves ensures m.leaves[k].frame != f {
      if m.leaves[k].frame !in m.dev { MappedIsUsed(m, k); }
    }
  }

  // ---- each operation ---------------------------------------------------------

  lemma ShareCount(m: Machine, parent: Key, child: Key, f: int)
    requires Inv(m) && parent in m.leaves && child !in m.leaves
    requires GetRef(m, m.leaves[parent].frame) < P.RC_MAX
    ensures CountOk(ShareLeaf(m, parent, child), f) && DevOk(ShareLeaf(m, parent, child), f)
  {
    var e := m.leaves[parent];
    var m' := ShareLeaf(m, parent, child);
    assert DevOk(m, f) && CountOk(m, f) && DevOk(m, e.frame);
    if e.frame in m.dev {
      LeavesOnSet(m.leaves, child, e, f);
    } else {
      MappedIsUsed(m, parent);
      assert parent in LeavesOn(m.leaves, e.frame) && child !in LeavesOn(m.leaves, e.frame);
      LeavesOnShare(m.leaves, parent, child, m'.leaves[child], f);
    }
  }

  lemma ShareFlags(m: Machine, parent: Key, child: Key, k: Key)
    requires Inv(m) && parent in m.leaves && child !in m.leaves
    requires GetRef(m, m.leaves[parent].frame) < P.RC_MAX
    requires k in ShareLeaf(m, parent, child).leaves
    ensures LeafOk(ShareLeaf(m, parent, child), ShareLeaf(m, parent, child).leaves[k])
  {
    var e := m.leaves[parent];
    assert DevOk(m, e.frame) && LeafOk(m, e);
    assert LeafOk(m, m.leaves[parent]) && (k in m.leaves ==> LeafOk(m, m.leaves[k]));
    if e.frame !in m.dev && k in m.leaves && k != parent {
      MappedIsUsed(m, parent);
      assert LeafOk(m, m.leaves[k]);
      if m.leaves[k].frame == e.frame && m.leaves[k].w {
        assert {parent, k} <= LeavesOn(m.leaves, e.frame);
        assert CountOk(m, e.frame);
        TwoMappers(LeavesOn(m.leaves, e.frame), parent, k);
      }
    }
  }

  lemma TwoMappers(s: set<Key>, a: Key, b: Key)
    requires a in s && b in s && a != b
    ensures |s| >= 2
  {
    assert {a, b} <= s;
    assert |s - {a}| == |s| - 1 && b in s - {a};
  }

  /** Sharing a leaf is copying the page: it keeps the counts and gives the child
      the parent's view. */
  lemma ShareLeafRefines(m: Machine, parent: Key, child: Key)
    requires Inv(m) && parent in m.leaves && child !in m.leaves
    requires GetRef(m, m.leaves[parent].frame) < P.RC_MAX
    ensures Inv(ShareLeaf(m, parent, child))
    ensures Abs(ShareLeaf(m, parent, child)) == E.CopyPage(Abs(m), parent, child)
  {
    var m' := ShareLeaf(m, parent, child);
    forall f ensures DevOk(m', f) && CountOk(m', f) { ShareCount(m, parent, child, f); }
    forall k | k in m'.leaves ensures LeafOk(m', m'.leaves[k]) { ShareFlags(m, parent, child, k); }
    assert PP.Exact(m'.pmm) by {
      assert DevOk(m, m.leaves[parent].frame);
      if m.leaves[parent].frame !in m.dev { MappedIsUsed(m, parent); }
    }
    ShareAbs(m, parent, child);
  }

  lemma ShareAbs(m: Machine, parent: Key, child: Key)
    requires Shaped(m) && parent in m.leaves && child !in m.leaves
    ensures Abs(ShareLeaf(m, parent, child)) == E.CopyPage(Abs(m), parent, child)
  {
    var m' := ShareLeaf(m, parent, child);
    var m1 := m.(leaves := m.leaves[parent := m'.leaves[parent]]);
    SameView(m, m1, parent);
    AbsUpdate(m1, m', child);
  }

  /** Marking a leaf does not change what its space sees. */
  lemma SameView(m: Machine, m': Machine, k: Key)
    requires k in m.leaves && k in m'.leaves && m' == m.(leaves := m.leaves[k := m'.leaves[k]], pmm := m'.pmm)
    requires ViewOf(m, m'.leaves[k]) == ViewOf(m, m.leaves[k])
    ensures Abs(m') == Abs(m)
  {
    AbsUpdate(m, m', k);
    assert Abs(m').pages == Abs(m).pages;
  }

  /** The share keeps the counts exact unless the count is saturated: a saturated
      count is not raised although a leaf is added. */
  lemma ShareExactIff(m: Machine, parent: Key, child: Key)
    requires Inv(m) && parent in m.leaves && child !in m.leaves
    ensures Inv(ShareLeaf(m, parent, child)) <==> GetRef(m, m.leaves[parent].frame) < P.RC_MAX
  {
    var f := m.leaves[parent].frame;
    assert DevOk(m, f);
    if GetRef(m, f) < P.RC_MAX {
      ShareLeafRefines(m, parent, child);
    } else {
      var m' := ShareLeaf(m, parent, child);
      assert CountOk(m, f);
      assert parent in LeavesOn(m.leaves, f) && child !in LeavesOn(m.leaves, f);
      LeavesOnShare(m.leaves, parent, child, m'.leaves[child], f);
      assert !CountOk(m', f);
    }
  }

  // ---- write faults -------------------------------------------------------------

  /** The copying path: a new frame for this leaf, one reference less on the old. */
  ghost predicate Copies(m: Machine, k: Key)
    requires Shaped(m)
  {
    k in m.leaves && m.leaves[k].cow && GetRef(m, m.leaves[k].frame) > 1 && AllocFrame(m).Some?
  }

  lemma CopyState(m: Machine, k: Key)
    requires Inv(m) && Copies(m, k)
    ensures var m' := WriteFault(m, k).0; var e := m.leaves[k]; var f := AllocFrame(m).value.1;
            && WriteFault(m, k).1 == Handled
            && Shaped(m') && PP.Exact(m'.pmm) && m'.dev == m.dev
            && P.Managed(m.pmm, f) && P.Managed(m.pmm, e.frame) && e.frame !in m.dev && f !in m.dev && f != e.frame
            && m'.pmm.rc == m.pmm.rc[f := 1][e.frame := m.pmm.rc[e.frame] - 1]
            && m'.pmm.used == m.pmm.used[f := true]
            && m'.leaves == m.leaves[k := MkWrite(e, f)]
            && m'.mem == m.mem[f := Contents(m.mem, e.frame)]
            && LeavesOn(m.leaves, f) == {}
  {
    var e := m.leaves[k];
    assert DevOk(m, e.frame) && LeafOk(m, e);
    MappedIsUsed(m, k);
    FreshFrame(m);
    var (m1, f) := AllocFrame(m).value;
    assert k in LeavesOn(m.leaves, e.frame);
    PP.FreeOneReturnsLast(m1.pmm, e.frame);
    assert m.pmm.used[e.frame];
    assert m1.pmm.used[e.frame := true] == m1.pmm.used;
  }

  lemma CopyCount(m: Machine, k: Key, g: int)
    requires Inv(m) && Copies(m, k)
    ensures DevOk(WriteFault(m, k).0, g) && CountOk(WriteFault(m, k).0, g)
  {
    CopyState(m, k);
    var e := m.leaves[k];
    var f := AllocFrame(m).value.1;
    assert DevOk(m, g) && CountOk(m, g);
    MoveCount(m.leaves, k, MkWrite(e, f), g);
  }

  /** How many leaves map `g` after leaf `k` moved to another frame. */
  lemma MoveCount(leaves: map<Key, Leaf>, k: Key, e: Leaf, g: int)
    requires k in leaves && leaves[k].frame != e.frame
    ensures |LeavesOn(leaves[k := e], g)| == |LeavesOn(leaves, g)|
              + (if g == e.frame then 1 else 0) - (if g == leaves[k].frame then 1 else 0)
    ensures g != e.frame && g != leaves[k].frame ==> LeavesOn(leaves[k := e], g) == LeavesOn(leaves, g)
  {
    LeavesOnSet(leaves, k, e, g);
    if g == leaves[k].frame { assert k in LeavesOn(leaves, g); }
    else { assert k !in LeavesOn(leaves, g); }
  }

  lemma CopyFlags(m: Machine, k: Key, j: Key)
    requires Inv(m) && Copies(m, k) && j in WriteFault(m, k).0.leaves
    ensures LeafOk(WriteFault(m, k).0, WriteFault(m, k).0.leaves[j])
  {
    CopyState(m, k);
    var e := m.leaves[k];
    if j != k {
      assert LeafOk(m, m.leaves[j]);
      assert j !in LeavesOn(m.leaves, AllocFrame(m).value.1);
    }
  }

  /** No page of the allocator is free. */
  ghost predicate AllPagesUsed(m: Machine) { forall p :: 0 <= p < |m.pmm.used| ==> m.pmm.used[p] }

  /** A page marked copy-on-write whose frame has other mappers. */
  predicate SharedMark(m: Machine, k: Key)
    requires Shaped(m)
  {
    k in m.leaves && m.leaves[k].cow && GetRef(m, m.leaves[k].frame) > 1
  }

  lemma NoFrameIff(m: Machine)
    requires Shaped(m)
    ensures AllocFrame(m).None? <==> AllPagesUsed(m)
  {
    PP.ClaimComplete(m.pmm, 1);
    if AllocFrame(m).Some? {
      assert !m.pmm.used[P.ClaimStart(m.pmm, 1).value];
    } else {
      forall p | 0 <= p < |m.pmm.used| ensures m.pmm.used[p] { assert !P.FreeRun(m.pmm.used, p, 1); }
    }
  }

  /** The fault handler keeps the counts exact and changes no view. It gives up for want of
      memory if and only if the page is marked, others map its frame and no page is free;
      it refuses if and only if the page is not logically writable; and otherwise the page
      can be written. */
  lemma WriteFaultRefines(m: Machine, k: Key)
    requires Inv(m)
    ensures Inv(WriteFault(m, k).0)
    ensures Abs(WriteFault(m, k).0) == Abs(m)
    ensures WriteFault(m, k).1 == Handled ==> k in WriteFault(m, k).0.leaves && WriteFault(m, k).0.leaves[k].w
    ensures WriteFault(m, k).1 == NotCow <==> k !in m.leaves || (!m.leaves[k].w && !m.leaves[k].cow)
    ensures WriteFault(m, k).1 == NoMem <==> SharedMark(m, k) && AllPagesUsed(m)
  {
    NoFrameIff(m);
    if k in m.leaves && m.leaves[k].cow {
      if GetRef(m, m.leaves[k].frame) <= 1 { LastMapperRefines(m, k); }
      else if AllocFrame(m).None? { FailedRefines(m); }
      else { CopyRefines(m, k); }
    }
  }

  lemma CopyKeeps(m: Machine, k: Key)
    requires Inv(m) && Copies(m, k)
    ensures Inv(WriteFault(m, k).0)
  {
    var m' := WriteFault(m, k).0;
    forall g ensures DevOk(m', g) && CountOk(m', g) { CopyCount(m, k, g); }
    forall j | j in m'.leaves ensures LeafOk(m', m'.leaves[j]) { CopyFlags(m, k, j); }
    CopyState(m, k);
  }

  lemma CopyRefines(m: Machine, k: Key)
    requires Inv(m) && Copies(m, k)
    ensures Inv(WriteFault(m, k).0)
    ensures Abs(WriteFault(m, k).0) == Abs(m)
  {
    var m' := WriteFault(m, k).0;
    CopyKeeps(m, k);
    CopyState(m, k);
    CopyAbs(m, m', k, AllocFrame(m).value.1);
  }

  lemma CopyAbs(m: Machine, m': Machine, k: Key, f: int)
    requires k in m.leaves && m.leaves[k].cow && m.leaves[k].frame !in m.dev && f !in m.dev
    requires LeavesOn(m.leaves, f) == {} && m'.dev == m.dev
    requires m'.leaves == m.leaves[k := MkWrite(m.leaves[k], f)]
    requires m'.mem == m.mem[f := Contents(m.mem, m.leaves[k].frame)]
    ensures Abs(m') == Abs(m)
  {
    forall j | j in m.leaves ensures m.leaves[j].frame != f { assert j !in LeavesOn(m.leaves, f); }
    AbsUpdate(m, m', k);
    assert Abs(m').pages == Abs(m).pages;
  }

  /** The last mapper takes the frame over: no page is taken, none copied, and only this
      leaf changes. */
  lemma LastMapperRefines(m: Machine, k: Key)
    requires Inv(m) && k in m.leaves && m.leaves[k].cow && GetRef(m, m.leaves[k].frame) <= 1
    ensures Inv(WriteFault(m, k).0)
    ensures Abs(WriteFault(m, k).0) == Abs(m)
    ensures var (m', out) := WriteFault(m, k);
            && out == Handled && m'.pmm == m.pmm && m'.mem == m.mem && m'.dev == m.dev && m'.kept == m.kept
            && m'.leaves.Keys == m.leaves.Keys && m'.leaves[k].frame == m.leaves[k].frame && m'.leaves[k].w
            && forall j :: j in m.leaves && j != k ==> m'.leaves[j] == m.leaves[j]
  {
    var e := m.leaves[k];
    var m' := WriteFault(m, k).0;
    assert LeafOk(m, e);
    MappedIsUsed(m, k);
    SameFrameKeeps(m, m', k);
    SameView(m, m', k);
  }

  /** Rewriting the flags of one leaf keeps the counts. */
  lemma SameFrameKeeps(m: Machine, m': Machine, k: Key)
    requires Inv(m) && k in m.leaves && k in m'.leaves
    requires m' == m.(leaves := m.leaves[k := m'.leaves[k]])
    requires m'.leaves[k].frame == m.leaves[k].frame && LeafOk(m, m'.leaves[k])
    ensures Inv(m')
  {
    forall f ensures DevOk(m', f) && CountOk(m', f) {
      assert DevOk(m, f) && CountOk(m, f);
      LeavesOnSet(m.leaves, k, m'.leaves[k], f);
      assert LeavesOn(m'.leaves, f) == LeavesOn(m.leaves, f);
    }
    forall j | j in m'.leaves ensures LeafOk(m', m'.leaves[j]) {
      assert LeafOk(m, m'.leaves[j]);
    }
  }

  /** A failed allocation only normalises the origin. */
  lemma FailedRefines(m: Machine)
    requires Inv(m) && AllocFrame(m).None?
    ensures Inv(Failed(m)) && Abs(Failed(m)) == Abs(m)
  {
    var m' := Failed(m);
    PP.ClaimExact(m.pmm, 1, -1);
    forall f ensures DevOk(m', f) && CountOk(m', f) { assert DevOk(m, f) && CountOk(m, f); }
    forall j | j in m'.leaves ensures LeafOk(m', m'.leaves[j]) { assert LeafOk(m, m.leaves[j]); }
  }

  // ---- stores ---------------------------------------------------------------------

  /** A change of frame contents leaves the counts alone. */
  lemma MemKeeps(m: Machine, mem: map<int, Page>)
    requires Inv(m)
    ensures Inv(m.(mem := mem))
  {
    var m' := m.(mem := mem);
    forall f ensures DevOk(m', f) && CountOk(m', f) { assert DevOk(m, f) && CountOk(m, f); }
    forall j | j in m'.leaves ensures LeafOk(m', m'.leaves[j]) { assert LeafOk(m, m.leaves[j]); }
  }

  /** A writable owned frame has one mapper. */
  lemma SoleWriter(m: Machine, k: Key, j: Key)
    requires Inv(m) && k in m.leaves && j in m.leaves && j != k
    requires m.leaves[k].w && m.leaves[k].frame !in m.dev
    ensures m.leaves[j].frame != m.leaves[k].frame
  {
    var e := m.leaves[k];
    assert LeafOk(m, e) && CountOk(m, e.frame);
    assert k in LeavesOn(m.leaves, e.frame);
    if m.leaves[j].frame == e.frame {
      assert j in LeavesOn(m.leaves, e.frame);
      TwoMappers(LeavesOn(m.leaves, e.frame), k, j);
    }
  }

  /** A store through a writable leaf is seen by that page alone. */
  lemma WriteThroughRefines(m: Machine, k: Key, off: nat, b: bv8)
    requires Inv(m) && k in m.leaves && m.leaves[k].w
    ensures Inv(WriteThrough(m, k, off, b))
    ensures Abs(WriteThrough(m, k, off, b)) == E.StorePage(Abs(m), k, off, b).0
  {
    var m' := WriteThrough(m, k, off, b);
    MemKeeps(m, m'.mem);
    if m.leaves[k].frame !in m.dev {
      forall j | j in m.leaves && j != k ensures m.leaves[j].frame != m.leaves[k].frame { SoleWriter(m, k, j); }
      AbsUpdate(m, m', k);
    }
  }

  /** A user store takes effect if and only if the page is logically writable, unless it
      needs a copy and no page is free; then it does what it would do on eagerly copied
      pages. Otherwise it changes nothing. */
  lemma UserStoreRefines(m: Machine, k: Key, off: nat, b: bv8)
    requires Inv(m)
    ensures var (m', ok) := UserStore(m, k, off, b);
            && Inv(m')
            && Abs(m') == (if ok then E.StorePage(Abs(m), k, off, b).0 else Abs(m))
            && (ok <==> k in Abs(m).pages && Abs(m).pages[k].w && !(SharedMark(m, k) && AllPagesUsed(m)))
  {
    if k in m.leaves && m.leaves[k].w {
      WriteThroughRefines(m, k, off, b);
      assert LeafOk(m, m.leaves[k]);
    } else {
      WriteFaultRefines(m, k);
      var m1 := WriteFault(m, k).0;
      if WriteFault(m, k).1 == Handled {
        assert Abs(m1).pages[k] == Abs(m).pages[k];
        WriteThroughRefines(m1, k, off, b);
      }
    }
  }

  // ---- mprotect, mmap, munmap ---------------------------------------------------------

  /** mprotect: the logical protection is the one asked for, although a shared page
      is only marked. */
  lemma ProtectRefines(m: Machine, k: Key, w: bool, x: bool)
    requires Inv(m)
    ensures Inv(ProtectPage(m, k, w, x))
    ensures Abs(ProtectPage(m, k, w, x)) == E.Protect(Abs(m), k, w, x)
  {
    if k in m.leaves {
      var e := m.leaves[k];
      var m' := ProtectPage(m, k, w, x);
      assert LeafOk(m, e) && DevOk(m, e.frame);
      if e.frame !in m.dev { MappedIsUsed(m, k); }
      SameFrameKeeps(m, m', k);
      AbsUpdate(m, m', k);
    }
  }

  lemma PageProtIsView(m: Machine, k: Key)
    requires Inv(m)
    ensures PageProt(m, k) == if k in Abs(m).pages then Some((Abs(m).pages[k].w, Abs(m).pages[k].x)) else None
  {}

  lemma MapKeeps(m: Machine, k: Key, page: Page, w: bool, x: bool)
    requires Inv(m) && k !in m.leaves && AllocFrame(m).Some?
    ensures Inv(MapPage(m, k, page, w, x).0)
  {
    FreshFrame(m);
    var (m1, f) := AllocFrame(m).value;
    var m' := MapPage(m, k, page, w, x).0;
    forall g ensures DevOk(m', g) && CountOk(m', g) {
      assert DevOk(m, g) && CountOk(m, g);
      LeavesOnSet(m.leaves, k, Leaf(f, w, x, false), g);
      assert k !in LeavesOn(m.leaves, g);
    }
    forall j | j in m'.leaves ensures LeafOk(m', m'.leaves[j]) {
      if j != k { assert LeafOk(m, m.leaves[j]); assert j !in LeavesOn(m.leaves, f); }
    }
  }

  lemma MapRefines(m: Machine, k: Key, page: Page, w: bool, x: bool)
    requires Inv(m) && k !in m.leaves
    ensures var (m', ok) := MapPage(m, k, page, w, x);
            Inv(m') && Abs(m') == if ok then E.Map(Abs(m), k, page, w, x) else Abs(m)
  {
    var (m', ok) := MapPage(m, k, page, w, x);
    if ok {
      MapKeeps(m, k, page, w, x);
      FreshFrame(m);
      forall j | j in m.leaves ensures m.leaves[j].frame != AllocFrame(m).value.1 {
        assert j !in LeavesOn(m.leaves, AllocFrame(m).value.1);
      }
      AbsUpdate(m, m', k);
    } else {
      FailedRefines(m);
    }
  }

  lemma MapOverState(m: Machine, k: Key, page: Page, w: bool, x: bool)
    requires Inv(m) && k in m.leaves && AllocFrame(m).Some?
    ensures var m' := MapPage(m, k, page, w, x).0; var f := AllocFrame(m).value.1;
            && Shaped(m') && PP.Exact(m'.pmm) && m'.dev == m.dev && m'.kept == m.kept && f != m.leaves[k].frame
            && m'.pmm.rc == m.pmm.rc[f := 1] && m'.pmm.used == m.pmm.used[f := true]
            && m'.leaves == m.leaves[k := Leaf(f, w, x, false)] && LeavesOn(m.leaves, f) == {} && f !in m.dev
               && f !in m.kept
            && P.Managed(m.pmm, f)
  {
    FreshFrame(m);
    var f := AllocFrame(m).value.1;
    assert k !in LeavesOn(m.leaves, f);
    PP.ClaimComplete(m.pmm, 1);
    assert CountOk(m, f);
  }

  /** Mapping over a leaf in place loses the reference it held: the counts stay exact if
      and only if there was none, or it was to device memory. */
  lemma MapExactIff(m: Machine, k: Key, page: Page, w: bool, x: bool)
    requires Inv(m) && AllocFrame(m).Some?
    ensures Inv(MapPage(m, k, page, w, x).0) <==> k !in m.leaves || m.leaves[k].frame in m.dev
  {
    var m' := MapPage(m, k, page, w, x).0;
    if k !in m.leaves {
      MapKeeps(m, k, page, w, x);
    } else {
      MapOverState(m, k, page, w, x);
      var e, f := m.leaves[k], AllocFrame(m).value.1;
      if e.frame in m.dev {
        forall g ensures DevOk(m', g) && CountOk(m', g) {
          assert DevOk(m, g) && CountOk(m, g);
          MoveCount(m.leaves, k, Leaf(f, w, x, false), g);
        }
        forall j | j in m'.leaves ensures LeafOk(m', m'.leaves[j]) {
          if j != k { assert LeafOk(m, m.leaves[j]); assert j !in LeavesOn(m.leaves, f); }
        }
      } else {
        MappedIsUsed(m, k);
        assert CountOk(m, e.frame) && k in LeavesOn(m.leaves, e.frame);
        MoveCount(m.leaves, k, Leaf(f, w, x, false), e.frame);
        assert !CountOk(m', e.frame);
      }
    }
  }

  lemma MapDeviceRefines(m: Machine, k: Key, f: int, w: bool, x: bool)
    requires Inv(m) && k !in m.leaves && f in m.dev
    ensures Inv(MapDevice(m, k, f, w, x))
    ensures Abs(MapDevice(m, k, f, w, x)) == Abs(m).(pages := Abs(m).pages[k := E.Device(f, w, x)])
  {
    var m' := MapDevice(m, k, f, w, x);
    forall g ensures DevOk(m', g) && CountOk(m', g) {
      assert DevOk(m, g) && CountOk(m, g);
      LeavesOnSet(m.leaves, k, Leaf(f, w, x, false), g);
      assert k !in LeavesOn(m.leaves, g);
    }
    forall j | j in m'.leaves ensures LeafOk(m', m'.leaves[j]) { if j != k { assert LeafOk(m, m.leaves[j]); } }
    AbsUpdate(m, m', k);
  }

  /** munmap and exit: the frame is returned exactly when this was its last leaf. */
  lemma DropState(m: Machine, k: Key)
    requires Inv(m) && k in m.leaves
    ensures var m' := DropPage(m, k); var f := m.leaves[k].frame;
            && Shaped(m') && PP.Exact(m'.pmm)
            && (f in m.dev ==> m'.pmm == m.pmm)
            && (f !in m.dev ==>
                  && P.Managed(m.pmm, f) && m.pmm.used[f] && 0 < m.pmm.rc[f] == |LeavesOn(m.leaves, f)|
                  && m'.pmm.rc == m.pmm.rc[f := m.pmm.rc[f] - 1]
                  && m'.pmm.used == m.pmm.used[f := LeavesOn(m.leaves, f) != {k}])
  {
    var f := m.leaves[k].frame;
    assert DevOk(m, f) && CountOk(m, f);
    if f !in m.dev {
      MappedIsUsed(m, k);
      assert k in LeavesOn(m.leaves, f);
      PP.FreeOneReturnsLast(m.pmm, f);
      assert |LeavesOn(m.leaves, f)| == 1 ==> LeavesOn(m.leaves, f) == {k} by {
        if |LeavesOn(m.leaves, f)| == 1 { Singleton(LeavesOn(m.leaves, f), k); }
      }
    }
  }

  lemma Singleton(s: set<Key>, k: Key)
    requires |s| == 1 && k in s
    ensures s == {k}
  {
    assert |s - {k}| == 0;
  }

  lemma DropCount(m: Machine, k: Key, g: int)
    requires Inv(m) && k in m.leaves
    ensures DevOk(DropPage(m, k), g) && CountOk(DropPage(m, k), g)
  {
    DropState(m, k);
    assert DevOk(m, g) && CountOk(m, g);
    LeavesOnDrop(m.leaves, k, g);
    if g != m.leaves[k].frame { assert k !in LeavesOn(m.leaves, g); }
  }

  lemma DropFlags(m: Machine, k: Key, j: Key)
    requires Inv(m) && k in m.leaves && j in m.leaves && j != k
    ensures LeafOk(DropPage(m, k), m.leaves[j])
  {
    DropState(m, k);
    assert LeafOk(m, m.leaves[j]);
    if m.leaves[j].w && m.leaves[j].frame !in m.dev { SoleWriter(m, j, k); }
  }

  lemma DropRefines(m: Machine, k: Key)
    requires Inv(m)
    ensures Inv(DropPage(m, k))
    ensures Abs(DropPage(m, k)) == E.Drop(Abs(m), k)
  {
    DropAbs(m, k);
    if k in m.leaves {
      var m' := DropPage(m, k);
      forall g ensures DevOk(m', g) && CountOk(m', g) { DropCount(m, k, g); }
      forall j | j in m'.leaves ensures LeafOk(m', m'.leaves[j]) { DropFlags(m, k, j); }
      DropState(m, k);
    }
  }

  lemma DropAbs(m: Machine, k: Key)
    requires Shaped(m)
    ensures Abs(DropPage(m, k)) == E.Drop(Abs(m), k)
  {
    assert Abs(DropPage(m, k)).pages == E.Drop(Abs(m), k).pages;
  }
}
