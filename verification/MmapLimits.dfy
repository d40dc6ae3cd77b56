/** When mmap with MAP_FIXED and mremap succeed, from the page map and the free pages
    alone. */
module MmapLimits {
  import opened Prelude
  import P = PmmSpec
  import PP = PmmProps
  import opened CowSpec
  import opened CowProps
  import opened MmapSpec
  import opened MmapProps
  import opened MmapMemory
  import opened MmapRange

  predicate PageIn(win: Window, i: nat) { win.lo <= i < win.hi }

  /** A range is in the window when it has pages and all of them are. */
  lemma InWindowIff(win: Window, b: nat, n: nat)
    ensures InWindow(win, b, n) <==> n > 0 && forall i :: b <= i < b + n ==> PageIn(win, i)
  {
    if n > 0 && forall i :: b <= i < b + n ==> PageIn(win, i) {
      assert PageIn(win, b) && PageIn(win, b + n - 1);
    }
  }

  // ---- what dropping a range gives back -----------------------------------------

  /** Every leaf on `f` is in the pages [lo, hi) of space `a`. */
  ghost predicate OnlyHere(m: Machine, f: int, a: nat, lo: nat, hi: nat) {
    forall k :: k in LeavesOn(m.leaves, f) ==> Within(k, a, lo, hi)
  }

  /** The frames of the allocator that are mapped in the range and nowhere else. */
  ghost function LastHere(m: Machine, a: nat, lo: nat, hi: nat): (r: set<int>)
    ensures forall f :: f in r <==> f !in m.dev && LeavesOn(m.leaves, f) != {} && OnlyHere(m, f, a, lo, hi)
  {
    var r := set k | k in m.leaves && m.leaves[k].frame !in m.dev && OnlyHere(m, m.leaves[k].frame, a, lo, hi)
                 :: m.leaves[k].frame;
    assert forall f :: LeavesOn(m.leaves, f) != {} ==> exists k :: k in m.leaves && m.leaves[k].frame == f by {
      forall f | LeavesOn(m.leaves, f) != {} ensures exists k :: k in m.leaves && m.leaves[k].frame == f {
        var k :| k in LeavesOn(m.leaves, f);
      }
    }
    assert forall k :: k in m.leaves ==> k in LeavesOn(m.leaves, m.leaves[k].frame);
    r
  }

  lemma DropFreesOne(m: Machine, k: Key)
    requires Inv(m) && k in m.leaves
    ensures var f := m.leaves[k].frame;
            Free(DropPage(m, k)) == Free(m) + if f !in m.dev && LeavesOn(m.leaves, f) == {k} then 1 else 0
  {
    DropState(m, k);
    var f := m.leaves[k].frame;
    if f !in m.dev { PP.CountUpdate(m.pmm.used, f, LeavesOn(m.leaves, f) != {k}); }
  }

  lemma LastHereNone(m: Machine, a: nat, lo: nat, hi: nat)
    requires Key(a, lo) !in m.leaves
    ensures LastHere(m, a, lo, hi) == LastHere(m, a, lo + 1, hi)
  {
    forall f ensures OnlyHere(m, f, a, lo, hi) <==> OnlyHere(m, f, a, lo + 1, hi) {
      forall k | k in LeavesOn(m.leaves, f) ensures Within(k, a, lo, hi) <==> Within(k, a, lo + 1, hi) {
        assert k != Key(a, lo);
      }
    }
  }

  lemma DroppedOnlyHere(m: Machine, m1: Machine, a: nat, lo: nat, hi: nat, f: int)
    requires lo < hi && m1.leaves == m.leaves - {Key(a, lo)}
    ensures LeavesOn(m1.leaves, f) == LeavesOn(m.leaves, f) - {Key(a, lo)}
    ensures OnlyHere(m1, f, a, lo + 1, hi) <==> OnlyHere(m, f, a, lo, hi)
  {
    var k0 := Key(a, lo);
    LeavesOnDrop(m.leaves, k0, f);
    forall k | k in LeavesOn(m.leaves, f) && k != k0 ensures Within(k, a, lo, hi) <==> Within(k, a, lo + 1, hi) {
      assert k == Key(k.space, k.vpn);
    }
    assert Within(k0, a, lo, hi);
  }

  lemma LastHereDrop(m: Machine, m1: Machine, a: nat, lo: nat, hi: nat)
    requires lo < hi && Key(a, lo) in m.leaves && m1.leaves == m.leaves - {Key(a, lo)} && m1.dev == m.dev
    ensures var k := Key(a, lo); var f := m.leaves[k].frame;
            && LastHere(m, a, lo, hi)
               == LastHere(m1, a, lo + 1, hi) + (if f !in m.dev && LeavesOn(m.leaves, f) == {k} then {f} else {})
            && (LeavesOn(m.leaves, f) == {k} ==> f !in LastHere(m1, a, lo + 1, hi))
  {
    var k := Key(a, lo);
    var f := m.leaves[k].frame;
    assert k in LeavesOn(m.leaves, f);
    forall g ensures g in LastHere(m, a, lo, hi) <==>
                       g in LastHere(m1, a, lo + 1, hi) || (g == f && f !in m.dev && LeavesOn(m.leaves, f) == {k})
    {
      DroppedOnlyHere(m, m1, a, lo, hi, g);
      if g != f { assert k !in LeavesOn(m.leaves, g); }
      else if LeavesOn(m.leaves, f) - {k} == {} { assert LeavesOn(m.leaves, f) == {k}; }
    }
    DroppedOnlyHere(m, m1, a, lo, hi, f);
  }

  /** Dropping a range gives back exactly the frames that were mapped nowhere else. */
  lemma {:induction false} DropFrees(m: Machine, a: nat, lo: nat, hi: nat)
    requires Inv(m)
    ensures Free(DropTo(m, a, lo, hi)) == Free(m) + |LastHere(m, a, lo, hi)|
    decreases hi - lo
  {
    if lo < hi {
      var m1 := DropShaped(m, Key(a, lo));
      DropRefines(m, Key(a, lo));
      DropFrees(m1, a, lo + 1, hi);
      if Key(a, lo) in m.leaves {
        DropFreesOne(m, Key(a, lo));
        LastHereDrop(m, m1, a, lo, hi);
      } else {
        LastHereNone(m, a, lo, hi);
      }
    } else {
      EmptyRange(m, a, lo, hi);
    }
  }

  lemma EmptyRange(m: Machine, a: nat, lo: nat, hi: nat)
    requires hi <= lo
    ensures LastHere(m, a, lo, hi) == {}
  {
    forall f ensures f !in LastHere(m, a, lo, hi) {
      if LeavesOn(m.leaves, f) != {} {
        var k :| k in LeavesOn(m.leaves, f);
        assert !Within(k, a, lo, hi);
      }
    }
  }

  lemma ClearedFree(m: Machine, a: nat, b: nat, n: nat) returns (free: int)
    requires Inv(m)
    ensures free == Free(m) + |LastHere(m, a, b, b + n)|
    ensures var m1 := DropTo(m, a, b, b + n); Inv(m1) && Unmapped(m1, a, b, n) && Free(m1) == free
  {
    ClearedRange(m, a, b, n);
    DropFrees(m, a, b, b + n);
    free := Free(m) + |LastHere(m, a, b, b + n)|;
  }

  lemma ClearedFits(m: Machine, a: nat, b: nat, pages: seq<Page>, w: bool, x: bool, free: int)
    requires Inv(m) && Unmapped(m, a, b, |pages|) && Free(m) == free
    ensures MapFits(m, a, b, pages, w, x) <==> |pages| <= free
  {
    MapTopIs(m, a, b, pages, w, x);
  }

  /** mmap with MAP_FIXED succeeds if and only if the range is in the window and there are
      pages enough, counting those that only the range itself holds. */
  lemma MmapAtSucceedsIff(m: Machine, a: nat, b: nat, pages: seq<Page>, w: bool, x: bool, win: Window)
    requires Inv(m)
    ensures MmapAtFits(m, a, b, pages, w, x, win) <==>
              InWindow(win, b, |pages|) && |pages| <= Free(m) + |LastHere(m, a, b, b + |pages|)|
  {
    var n := ClearedFree(m, a, b, |pages|);
    ClearedFits(DropTo(m, a, b, b + |pages|), a, b, pages, w, x, n);
  }

  // ---- mremap -------------------------------------------------------------------

  /** The pages just above the range can be had in place. */
  ghost predicate RoomAbove(m: Machine, a: nat, b: nat, have: nat, want: nat, win: Window)
    requires have < want
  {
    && (forall i :: b + have <= i < b + want ==> PageIn(win, i))
    && (forall i {:trigger Key(a, i)} :: b + have <= i < b + want ==> Key(a, i) !in m.leaves)
  }

  lemma RoomAboveIff(m: Machine, a: nat, b: nat, have: nat, want: nat, win: Window)
    requires have < want
    ensures RoomAbove(m, a, b, have, want, win) <==> InPlace(m, a, b, have, want, win)
  {
    InWindowIff(win, b + have, want - have);
  }

  lemma GrowthAnswer(m: Machine, a: nat, b: nat, have: nat, want: nat, w: bool, x: bool, mayMove: bool, zero: Page,
                     hint: nat, win: Window)
    requires Inv(m) && win.lo < win.hi && have < want
    ensures var r := ResizeAnswer(m, a, b, have, want, w, x, mayMove, zero, hint, win);
            if InPlace(m, a, b, have, want, win) then r == if want - have <= Free(m) then Stays else Refused
            else if mayMove && FindGap(m, a, want, hint, win).Some? && want <= Free(m)
            then r == Moved(FindGap(m, a, want, hint, win).value)
            else r == Refused
  {
    if InPlace(m, a, b, have, want, win) {
      MapTopIs(m, a, b + have, Zeros(zero, want - have), w, x);
    } else {
      MmapSucceedsIff(m, a, Zeros(zero, want), w, x, hint, win);
    }
  }

  /** mremap of a range without holes: shrinking always succeeds and stays; growth stays if
      and only if the pages above are unmapped and in the window, and enough are free; else
      it moves if and only if it may, a gap is found, and enough pages are free for the
      whole. Anything else is refused. */
  lemma MremapSucceedsIff(m: Machine, a: nat, b: nat, have: nat, want: nat, mayMove: bool, zero: Page, hint: nat,
                          win: Window)
    requires Inv(m) && win.lo < win.hi
    ensures var r := Answer(m, a, b, have, want, mayMove, zero, hint, win);
            if b == 0 || have == 0 || want == 0 || (exists i :: b <= i < b + have && Key(a, i) !in m.leaves)
            then r == Refused
            else if want <= have then r == Stays
            else if RoomAbove(m, a, b, have, want, win) then r == if want - have <= Free(m) then Stays else Refused
            else if mayMove && FindGap(m, a, want, hint, win).Some? && want <= Free(m)
            then r == Moved(FindGap(m, a, want, hint, win).value)
            else r == Refused
  {
    if have < want {
      RoomAboveIff(m, a, b, have, want, win);
      var (w, x) := FirstProt(m, a, b);
      GrowthAnswer(m, a, b, have, want, w, x, mayMove, zero, hint, win);
    }
  }
}
