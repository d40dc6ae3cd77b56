/** Where mmap, mremap and stack growth fall short of what one would expect, each from a
    freshly booted machine: a call with MAP_FIXED that fails and takes the old page with it,
    a gap across the hint that is missed, a range that moves and stays, and a frame lost
    under the stack. */
module MmapFails {
  import opened Prelude
  import P = PmmSpec
  import PP = PmmProps
  import opened CowSpec
  import opened CowProps
  import opened CowRun
  import opened MmapSpec
  import opened MmapProps
  import opened MmapMemory
  import opened MmapRange
  import R = Mremap
  import S = StackGrow

  /** A machine that has booted with `n` free pages. */
  function Fresh(n: nat): Machine {
    Machine(P.State(seq(n, _ => false), seq(n, _ => 0), 0, 0), map[], map[], {}, {})
  }

  lemma {:induction false} NoneUsed(u: seq<bool>)
    requires forall i :: 0 <= i < |u| ==> !u[i]
    ensures PP.CountUsed(u) == 0
  {
    if u != [] { NoneUsed(u[..|u| - 1]); }
  }

  lemma FreshBooted(n: nat)
    ensures Booted(Fresh(n)) && Inv(Fresh(n)) && Free(Fresh(n)) == n
  {
    NoneUsed(Fresh(n).pmm.used);
    BootedInv(Fresh(n));
  }

  /** A page mapped while one is free. */
  lemma MapStep(m: Machine, k: Key, page: Page, w: bool, x: bool) returns (m1: Machine, f: nat)
    requires Inv(m) && k !in m.leaves && Free(m) > 0
    ensures Step(m, OpMap(k, page, w, x)) == (m1, true) && Inv(m1) && Free(m1) == Free(m) - 1
    ensures m1.leaves == m.leaves[k := Leaf(f, w, x, false)] && f !in m1.dev && GetRef(m1, f) == 1
  {
    MapTakesOne(m, k, page, w, x);
    FreshFrame(m);
    MapKeeps(m, k, page, w, x);
    m1, f := MapPage(m, k, page, w, x).0, AllocFrame(m).value.1;
  }

  lemma OneStepRun(m: Machine, op: Op)
    requires Shaped(m) && Legal(m, op) && Shaped(Step(m, op).0)
    ensures LegalRun(m, [op]) && Run(m, [op]) == Step(m, op).0
  {
    assert [op][1..] == [];
  }

  lemma TwoStepRun(m: Machine, op1: Op, op2: Op)
    requires Shaped(m) && Legal(m, op1)
    requires var m1 := Step(m, op1).0; Shaped(m1) && Legal(m1, op2) && Shaped(Step(m1, op2).0)
    ensures LegalRun(m, [op1, op2]) && Run(m, [op1, op2]) == Step(Step(m, op1).0, op2).0
  {
    OneStepRun(Step(m, op1).0, op2);
    assert [op1, op2][1..] == [op2];
  }

  // ---- MAP_FIXED ----------------------------------------------------------------

  /** A fork of a space with one page. */
  lemma ForkStep(m: Machine, k: Key, child: nat) returns (m1: Machine)
    requires Inv(m) && m.leaves.Keys == {k} && child != k.space && m.leaves[k].frame !in m.dev
    ensures Legal(m, OpFork(k.space, child, [k.vpn])) && Step(m, OpFork(k.space, child, [k.vpn])).0 == m1
    ensures Inv(m1) && Free(m1) == Free(m) && k in m1.leaves && m1.leaves[k].frame !in m1.dev
    ensures m1.leaves.Keys == {k, Key(child, k.vpn)} && m1.leaves[k].frame == m1.leaves[Key(child, k.vpn)].frame
  {
    var kid := Key(child, k.vpn);
    assert Key(k.space, k.vpn) == k && k in m.leaves;
    MappedIsUsed(m, k);
    assert CountOk(m, m.leaves[k].frame);
    assert LeavesOn(m.leaves, m.leaves[k].frame) == {k};
    m1 := ShareLeaf(m, k, kid);
    assert [k.vpn][1..] == [];
    assert Fork(m, k.space, child, [k.vpn]) == m1;
    ForkRefines(m, k.space, child, [k.vpn]);
  }

  /** A page another space shares gives no memory back. */
  lemma SharedDropFreesNone(m: Machine, k: Key, j: Key)
    requires Inv(m) && k in m.leaves && j in m.leaves && j != k
    requires m.leaves[j].frame == m.leaves[k].frame && m.leaves[k].frame !in m.dev
    ensures Free(DropPage(m, k)) == Free(m)
  {
    DropState(m, k);
    assert j in LeavesOn(m.leaves, m.leaves[k].frame);
    assert DropPage(m, k).pmm.used == m.pmm.used;
  }

  lemma DropOne(m: Machine, a: nat, v: nat)
    requires Shaped(m)
    ensures DropTo(m, a, v, v + 1) == DropPage(m, Key(a, v))
  {
    assert DropTo(m, a, v, v + 1) == DropTo(DropShaped(m, Key(a, v)), a, v + 1, v + 1);
  }

  lemma FixedDoesNotFit(m: Machine, k: Key, j: Key, zero: Page, w: bool, x: bool, win: Window)
    requires Inv(m) && k in m.leaves && j in m.leaves && j != k && Free(m) == 0
    requires m.leaves[j].frame == m.leaves[k].frame && m.leaves[k].frame !in m.dev
    ensures !MmapAtFits(m, k.space, k.vpn, [zero], w, x, win)
  {
    SharedDropFreesNone(m, k, j);
    DropOne(m, k.space, k.vpn);
    ClearedRange(m, k.space, k.vpn, 1);
    MapTopIs(DropTo(m, k.space, k.vpn, k.vpn + 1), k.space, k.vpn, [zero], w, x);
  }

  /** With no page free, MAP_FIXED over one shared page fails and loses it. */
  lemma FixedOverShared(m: Machine, k: Key, j: Key, zero: Page, w: bool, x: bool, win: Window)
    requires Inv(m) && k in m.leaves && j in m.leaves && j != k && Free(m) == 0 && InWindow(win, k.vpn, 1)
    requires m.leaves[j].frame == m.leaves[k].frame && m.leaves[k].frame !in m.dev
    ensures !MmapAtFits(m, k.space, k.vpn, [zero], w, x, win)
    ensures k in Abs(m).pages && k !in Abs(MmapAt(m, k.space, k.vpn, [zero], w, x, win)).pages
  {
    FixedDoesNotFit(m, k, j, zero, w, x, win);
    MmapAtReplaces(m, k.space, k.vpn, [zero], w, x, win);
    assert Within(k, k.space, k.vpn, k.vpn + 1);
  }

  /** One page of memory, mapped at page 10 and shared by fork. The parent maps over it with
      MAP_FIXED: the call fails for want of memory, and the page it had is gone. */
  lemma FailedFixedLosesPage(page: Page, zero: Page, w: bool, x: bool, win: Window)
    requires InWindow(win, 10, 1)
    ensures var m, ops := Fresh(1), [OpMap(Key(0, 10), page, w, x), OpFork(0, 1, [10])];
            && Booted(m) && LegalRun(m, ops)
            && var m1 := Run(m, ops);
            && Inv(m1) && !MmapAtFits(m1, 0, 10, [zero], w, x, win)
            && Key(0, 10) in Abs(m1).pages && Key(0, 10) !in Abs(MmapAt(m1, 0, 10, [zero], w, x, win)).pages
  {
    var m, k := Fresh(1), Key(0, 10);
    FreshBooted(1);
    var mid, f := MapStep(m, k, page, w, x);
    var m1 := ForkStep(mid, k, 1);
    TwoStepRun(m, OpMap(k, page, w, x), OpFork(0, 1, [10]));
    FixedOverShared(m1, k, Key(1, 10), zero, w, x, win);
  }

  // ---- the search ---------------------------------------------------------------

  /** Pages 10 and 13 of the window [10, 14) are mapped and two pages are free. A request
      for two pages with the hint at 12 is refused, although pages 11 and 12 would do. */
  lemma StraddledRequestRefused(page: Page, w: bool, x: bool, pages: seq<Page>)
    requires |pages| == 2
    ensures var m, ops := Fresh(4), [OpMap(Key(0, 10), page, w, x), OpMap(Key(0, 13), page, w, x)];
            && Booted(m) && LegalRun(m, ops)
            && var m1 := Run(m, ops);
            && Inv(m1) && Unmapped(m1, 0, 11, 2) && Free(m1) == 2
            && MmapBase(m1, 0, pages, w, x, 12, Window(10, 14)).None?
            && MmapBase(m1, 0, pages, w, x, 11, Window(10, 14)) == Some(11)
  {
    var m := Fresh(4);
    FreshBooted(4);
    var mid, f := MapStep(m, Key(0, 10), page, w, x);
    var m1, g := MapStep(mid, Key(0, 13), page, w, x);
    TwoStepRun(m, OpMap(Key(0, 10), page, w, x), OpMap(Key(0, 13), page, w, x));
    assert m1.leaves.Keys == {Key(0, 10), Key(0, 13)};
    OnlyMiddle(m1, 12);
    OnlyMiddle(m1, 11);
    MmapSucceedsIff(m1, 0, pages, w, x, 11, Window(10, 14));
  }

  lemma OnlyMiddle(m: Machine, hint: nat)
    requires m.leaves.Keys == {Key(0, 10), Key(0, 13)} && hint in {11, 12}
    ensures Unmapped(m, 0, 11, 2)
    ensures FindGap(m, 0, 2, hint, Window(10, 14)) == if hint == 12 then None else Some(11)
  {
    var win := Window(10, 14);
    assert Unmapped(m, 0, 11, 2);
    forall c: nat | 10 <= c && c + 2 <= 14 && Unmapped(m, 0, c, 2) ensures c == 11 {
      assert Key(0, 10) in m.leaves && Key(0, 13) in m.leaves;
    }
    if hint == 12 { StraddlingGapMissed(m, 0, 2, 12, win, 11); }
  }

  // ---- mremap -------------------------------------------------------------------

  /** A page below the window grows to two: it moves into the window, and the old page is
      still there. */
  lemma MovedRangeStays(page: Page, zero: Page, w: bool, x: bool)
    ensures var m, ops, win := Fresh(3), [OpMap(Key(0, 5), page, w, x)], Window(20, 30);
            && Booted(m) && LegalRun(m, ops)
            && var m1 := Run(m, ops);
            && Inv(m1) && Key(0, 5) in Abs(m1).pages
            && Answer(m1, 0, 5, 1, 2, true, zero, 20, win) == Moved(20)
            && var w2 := Abs(Mremap(m1, 0, 5, 1, 2, true, zero, 20, win));
            && Key(0, 5) in w2.pages && Key(0, 20) in w2.pages
            && w2.pages[Key(0, 5)] == w2.pages[Key(0, 20)] == Abs(m1).pages[Key(0, 5)]
  {
    var m, k, win := Fresh(3), Key(0, 5), Window(20, 30);
    FreshBooted(3);
    var m1, f := MapStep(m, k, page, w, x);
    OneStepRun(m, OpMap(k, page, w, x));
    assert m1.leaves.Keys == {k};
    assert Unmapped(m1, 0, 20, 2);
    assert Mapped(m1, 0, 5, 1);
    MmapSucceedsIff(m1, 0, Zeros(zero, 2), w, x, 20, win);
    PageProtIsView(m1, k);
    R.MremapKeeps(m1, 0, 5, 1, 2, true, zero, 20, win);
    assert Within(Key(0, 20), 0, 20, 21);
    R.BytesSeen(m1, k);
  }

  // ---- the stack ----------------------------------------------------------------

  /** A page just below the stack, and a fault on the stack at that page: growth puts a zero
      page over it, and the frame that was there is never given back. */
  lemma GrowthLosesFrame(page: Page, zero: Page, w: bool, x: bool)
    ensures var m, ops, st := Fresh(2), [OpMap(Key(0, 9), page, w, x)], S.Stack(12, 10, 9);
            && Booted(m) && LegalRun(m, ops)
            && var m1 := Run(m, ops);
            && Inv(m1) && S.Grows(st, 8, 9) && !Inv(S.Grow(m1, 0, st, 8, 9, zero))
  {
    var m, k, st := Fresh(2), Key(0, 9), S.Stack(12, 10, 9);
    FreshBooted(2);
    var m1, f := MapStep(m, k, page, w, x);
    OneStepRun(m, OpMap(k, page, w, x));
    assert Shaped(m1) && S.Owned(m1, k);
    S.GrowExact(m1, 0, st, 8, 9, zero);
  }
}
