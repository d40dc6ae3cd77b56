/** mmap touches only unmapped pages of its window and fails without a trace; mremap
    keeps contents. */
module MmapProps {
  import opened Prelude
  import P = PmmSpec
  import PP = PmmProps
  import opened CowSpec
  import opened CowProps
  import opened MmapSpec
  import E = Eager

  // ---- finding a gap ------------------------------------------------------------

  /** The range returned is unmapped and inside the window. */
  lemma GapIsFree(m: Machine, a: nat, n: nat, hint: nat, win: Window)
    requires FindGap(m, a, n, hint, win).Some? && win.lo < win.hi
    ensures var b := FindGap(m, a, n, hint, win).value; InWindow(win, b, n) && Unmapped(m, a, b, n)
  {
  }

  /** The search fails exactly when no gap lies on one side of the hint. */
  lemma GapCompleteIff(m: Machine, a: nat, n: nat, hint: nat, win: Window)
    requires 0 < n && win.lo < win.hi
    ensures FindGap(m, a, n, hint, win).None? <==>
              forall b :: win.lo <= b && b + n <= win.hi && Unmapped(m, a, b, n) ==> b < hint < b + n
  {
    var h := Hint(win, hint);
    if FindGap(m, a, n, hint, win).None? && win.lo + n <= win.hi {
      forall b | win.lo <= b && b + n <= win.hi && Unmapped(m, a, b, n) ensures b < h < b + n {
        assert FirstGap(m, a, n, h, win.hi).None?;
        assert h > win.lo ==> FirstGap(m, a, n, win.lo, h).None?;
      }
    }
  }

  /** A gap across the hint is missed, although it would serve. */
  lemma StraddlingGapMissed(m: Machine, a: nat, n: nat, hint: nat, win: Window, b: nat)
    requires 0 < n && win.lo <= b < hint < b + n <= win.hi && Unmapped(m, a, b, n)
    requires forall c :: win.lo <= c && c + n <= win.hi && Unmapped(m, a, c, n) ==> c == b
    ensures FindGap(m, a, n, hint, win).None?
  {
    GapCompleteIff(m, a, n, hint, win);
  }

  // ---- pages mapped on top of a machine -----------------------------------------

  function FrameAt(m: Machine, a: nat, i: nat): int { if Key(a, i) in m.leaves then m.leaves[Key(a, i)].frame else -1 }

  ghost function Frames(m: Machine, a: nat, lo: nat, hi: nat): set<int> { set i | lo <= i < hi :: FrameAt(m, a, i) }

  /** `g` was free in `m0` and holds one new page in `m`. */
  ghost predicate NewFrame(m0: Machine, m: Machine, g: int) {
    && 0 <= g < |m0.pmm.used| && 0 <= g < |m.pmm.used| && g < |m0.pmm.rc| && g < |m.pmm.rc| && g !in m0.dev
    && !m0.pmm.used[g] && m0.pmm.rc[g] == 0 && m.pmm.used[g] && m.pmm.rc[g] == 1
  }

  ghost predicate SameFrame(m0: Machine, m: Machine, g: int) {
    0 <= g < |m0.pmm.used| && g < |m.pmm.used| && g < |m0.pmm.rc| && g < |m.pmm.rc| ==>
      m.pmm.used[g] == m0.pmm.used[g] && m.pmm.rc[g] == m0.pmm.rc[g]
  }

  predicate Within(k: Key, a: nat, lo: nat, hi: nat) { k.space == a && lo <= k.vpn < hi }

  ghost predicate SameLeaves(m0: Machine, m: Machine, a: nat, lo: nat, hi: nat) {
    forall k: Key {:trigger k in m.leaves} ::
      if Within(k, a, lo, hi) then k in m.leaves && k !in m0.leaves
      else (k in m.leaves <==> k in m0.leaves) && (k in m.leaves ==> m.leaves[k] == m0.leaves[k])
  }

  /** `m` is `m0` with new pages at [lo, hi) of space `a`, each on a frame of its own. */
  ghost predicate Extra(m0: Machine, m: Machine, a: nat, lo: nat, hi: nat) {
    && Inv(m0) && Inv(m) && m.dev == m0.dev && lo <= hi
    && |m.pmm.used| == |m0.pmm.used|
    && SameLeaves(m0, m, a, lo, hi)
    && (forall g {:trigger g in Frames(m, a, lo, hi)} :: g in Frames(m, a, lo, hi) ==> NewFrame(m0, m, g))
    && (forall g {:trigger SameFrame(m0, m, g)} :: g !in Frames(m, a, lo, hi) ==> SameFrame(m0, m, g))
  }

  lemma ExtraStart(m: Machine, a: nat, lo: nat)
    requires Inv(m)
    ensures Extra(m, m, a, lo, lo)
  {
  }

  lemma FramesPush(m: Machine, m': Machine, a: nat, lo: nat, hi: nat, f: int)
    requires lo <= hi && FrameAt(m', a, hi) == f && forall i :: lo <= i < hi ==> FrameAt(m', a, i) == FrameAt(m, a, i)
    ensures Frames(m', a, lo, hi + 1) == Frames(m, a, lo, hi) + {f}
  {
    forall g ensures g in Frames(m', a, lo, hi + 1) <==> g in Frames(m, a, lo, hi) + {f} {
      if g in Frames(m', a, lo, hi + 1) {
        var i :| lo <= i < hi + 1 && FrameAt(m', a, i) == g;
        if i < hi { assert FrameAt(m, a, i) == g; }
      }
      if g in Frames(m, a, lo, hi) {
        var i :| lo <= i < hi && FrameAt(m, a, i) == g;
        assert FrameAt(m', a, i) == g;
      }
    }
  }

  lemma SetLeaf(m0: Machine, m: Machine, m': Machine, a: nat, lo: nat, hi: nat, e: Leaf)
    requires SameLeaves(m0, m, a, lo, hi) && lo <= hi && Key(a, hi) !in m.leaves
             && m'.leaves == m.leaves[Key(a, hi) := e]
    ensures SameLeaves(m0, m', a, lo, hi + 1)
  {
    assert Key(a, hi) !in m0.leaves;
    forall j: Key ensures if Within(j, a, lo, hi + 1) then j in m'.leaves && j !in m0.leaves
                          else && (j in m'.leaves <==> j in m0.leaves)
                               && (j in m'.leaves ==> m'.leaves[j] == m0.leaves[j]) {
      assert j in m.leaves <==> j in m.leaves;
    }
  }

  /** One frame changes from free to holding one page. */
  lemma SetFrames(m0: Machine, m: Machine, m': Machine, a: nat, lo: nat, hi: nat, f: int)
    requires Extra(m0, m, a, lo, hi) && Frames(m', a, lo, hi + 1) == Frames(m, a, lo, hi) + {f}
    requires 0 <= f < |m.pmm.used| && Shaped(m) && !m.pmm.used[f] && m.pmm.rc[f] == 0 && f !in m0.dev
    requires m'.pmm.used == m.pmm.used[f := true] && m'.pmm.rc == m.pmm.rc[f := 1]
    ensures forall g {:trigger g in Frames(m', a, lo, hi + 1)} :: g in Frames(m', a, lo, hi + 1) ==> NewFrame(m0, m', g)
    ensures forall g {:trigger SameFrame(m0, m', g)} :: g !in Frames(m', a, lo, hi + 1) ==> SameFrame(m0, m', g)
  {
    assert f !in Frames(m, a, lo, hi);
    assert SameFrame(m0, m, f);
    assert |m0.pmm.rc| == |m0.pmm.used|;
    forall g | g in Frames(m', a, lo, hi + 1) ensures NewFrame(m0, m', g) {
      if g != f { assert g in Frames(m, a, lo, hi); }
    }
    forall g | g !in Frames(m', a, lo, hi + 1) ensures SameFrame(m0, m', g) { assert SameFrame(m0, m, g); }
  }

  lemma MapExtra(m0: Machine, m: Machine, a: nat, lo: nat, hi: nat, page: Page, w: bool, x: bool)
    requires Extra(m0, m, a, lo, hi) && Key(a, hi) !in m.leaves && AllocFrame(m).Some?
    ensures Extra(m0, MapPage(m, Key(a, hi), page, w, x).0, a, lo, hi + 1)
  {
    var k := Key(a, hi);
    var m' := MapPage(m, k, page, w, x).0;
    var f := AllocFrame(m).value.1;
    MapRefines(m, k, page, w, x);
    FreshFrame(m);
    assert !m.pmm.used[f] && m.pmm.rc[f] == 0 by { PP.ClaimComplete(m.pmm, 1); }
    SetLeaf(m0, m, m', a, lo, hi, Leaf(f, w, x, false));
    FramesPush(m, m', a, lo, hi, f);
    SetFrames(m0, m, m', a, lo, hi, f);
  }

  lemma FramesSame(m: Machine, m': Machine, a: nat, lo: nat, hi: nat)
    requires m'.leaves == m.leaves
    ensures Frames(m', a, lo, hi) == Frames(m, a, lo, hi)
  {
    forall i ensures FrameAt(m', a, i) == FrameAt(m, a, i) {}
    forall g ensures g in Frames(m', a, lo, hi) <==> g in Frames(m, a, lo, hi) {
      if g in Frames(m', a, lo, hi) { var i :| lo <= i < hi && FrameAt(m', a, i) == g; assert FrameAt(m, a, i) == g; }
      if g in Frames(m, a, lo, hi) { var i :| lo <= i < hi && FrameAt(m, a, i) == g; assert FrameAt(m', a, i) == g; }
    }
  }

  lemma FailExtra(m0: Machine, m: Machine, a: nat, lo: nat, hi: nat)
    requires Extra(m0, m, a, lo, hi) && AllocFrame(m).None?
    ensures Extra(m0, Failed(m), a, lo, hi)
  {
    FailedRefines(m);
    var m' := Failed(m);
    assert m'.leaves == m.leaves && m'.pmm.used == m.pmm.used && m'.pmm.rc == m.pmm.rc;
    FramesSame(m, m', a, lo, hi);
    forall g | g in Frames(m', a, lo, hi) ensures NewFrame(m0, m', g) { assert g in Frames(m, a, lo, hi); }
    forall g | g !in Frames(m', a, lo, hi) ensures SameFrame(m0, m', g) { assert SameFrame(m0, m, g); }
    forall j: Key ensures if Within(j, a, lo, hi) then j in m'.leaves && j !in m0.leaves
                          else && (j in m'.leaves <==> j in m0.leaves)
                               && (j in m'.leaves ==> m'.leaves[j] == m0.leaves[j]) {
      assert j in m.leaves <==> j in m.leaves;
    }
  }

  // ---- and dropped again --------------------------------------------------------

  lemma FramesDrop(m: Machine, m': Machine, a: nat, lo: nat, hi: nat, f: int)
    requires lo < hi && FrameAt(m, a, lo) == f && forall i :: lo < i < hi ==> FrameAt(m', a, i) == FrameAt(m, a, i) != f
    ensures Frames(m', a, lo + 1, hi) == Frames(m, a, lo, hi) - {f}
  {
    forall g ensures g in Frames(m', a, lo + 1, hi) <==> g in Frames(m, a, lo, hi) - {f} {
      if g in Frames(m', a, lo + 1, hi) {
        var i :| lo + 1 <= i < hi && FrameAt(m', a, i) == g;
        assert FrameAt(m, a, i) == g;
      }
      if g in Frames(m, a, lo, hi) - {f} {
        var i :| lo <= i < hi && FrameAt(m, a, i) == g;
        assert FrameAt(m', a, i) == g;
      }
    }
  }

  lemma DropLeaf(m0: Machine, m: Machine, m': Machine, a: nat, lo: nat, hi: nat)
    requires SameLeaves(m0, m, a, lo, hi) && lo < hi && m'.leaves == m.leaves - {Key(a, lo)}
    ensures SameLeaves(m0, m', a, lo + 1, hi)
  {
    assert Key(a, lo) in m.leaves;
    forall j: Key ensures if Within(j, a, lo + 1, hi) then j in m'.leaves && j !in m0.leaves
                          else && (j in m'.leaves <==> j in m0.leaves)
                               && (j in m'.leaves ==> m'.leaves[j] == m0.leaves[j]) {
      assert j in m.leaves <==> j in m.leaves;
    }
  }

  lemma ClearFrames(m0: Machine, m: Machine, m': Machine, a: nat, lo: nat, hi: nat, f: int)
    requires Extra(m0, m, a, lo, hi) && lo < hi && Frames(m', a, lo + 1, hi) == Frames(m, a, lo, hi) - {f}
    requires f in Frames(m, a, lo, hi) && 0 <= f < |m.pmm.used| && Shaped(m)
    requires m'.pmm.used == m.pmm.used[f := false] && m'.pmm.rc == m.pmm.rc[f := 0]
    ensures forall g {:trigger g in Frames(m', a, lo + 1, hi)} :: g in Frames(m', a, lo + 1, hi) ==> NewFrame(m0, m', g)
    ensures forall g {:trigger SameFrame(m0, m', g)} :: g !in Frames(m', a, lo + 1, hi) ==> SameFrame(m0, m', g)
  {
    assert NewFrame(m0, m, f);
    forall g | g in Frames(m', a, lo + 1, hi) ensures NewFrame(m0, m', g) { assert g in Frames(m, a, lo, hi); }
    forall g | g !in Frames(m', a, lo + 1, hi) ensures SameFrame(m0, m', g) {
      if g != f { assert SameFrame(m0, m, g); }
    }
  }

  /** A frame counted once is mapped once. */
  lemma OneMapper(m: Machine, k: Key, j: Key)
    requires Inv(m) && k in m.leaves && j in m.leaves && j != k && m.leaves[k].frame !in m.dev
             && GetRef(m, m.leaves[k].frame) == 1
    ensures m.leaves[j].frame != m.leaves[k].frame
  {
    var f := m.leaves[k].frame;
    assert CountOk(m, f) && k in LeavesOn(m.leaves, f);
    Singleton(LeavesOn(m.leaves, f), k);
    assert j in LeavesOn(m.leaves, f) <==> m.leaves[j].frame == f;
  }

  lemma DropExtra(m0: Machine, m: Machine, a: nat, lo: nat, hi: nat)
    requires Extra(m0, m, a, lo, hi) && lo < hi
    ensures Extra(m0, DropPage(m, Key(a, lo)), a, lo + 1, hi)
  {
    var k := Key(a, lo);
    assert Within(k, a, lo, hi) && k in m.leaves;
    var f := m.leaves[k].frame;
    var m' := DropPage(m, k);
    assert FrameAt(m, a, lo) in Frames(m, a, lo, hi);
    assert NewFrame(m0, m, f);
    DropRefines(m, k);
    DropState(m, k);
    Singleton(LeavesOn(m.leaves, f), k) by { assert k in LeavesOn(m.leaves, f); }
    forall i | lo < i < hi ensures FrameAt(m', a, i) == FrameAt(m, a, i) != f {
      assert Within(Key(a, i), a, lo, hi) && Key(a, i) in m.leaves;
      OneMapper(m, k, Key(a, i));
    }
    FramesDrop(m, m', a, lo, hi, f);
    DropLeaf(m0, m, m', a, lo, hi);
    ClearFrames(m0, m, m', a, lo, hi, f);
  }

  /** The machine as it was, but for the allocator's origin and the bytes of free frames. */
  ghost predicate Restored(m0: Machine, m: Machine) {
    m.leaves == m0.leaves && m.dev == m0.dev && m.pmm.used == m0.pmm.used && m.pmm.rc == m0.pmm.rc
      && m.pmm.count == m0.pmm.count
  }

  lemma NothingExtra(m0: Machine, m: Machine, a: nat, lo: nat)
    requires Extra(m0, m, a, lo, lo)
    ensures Restored(m0, m)
  {
    forall k ensures k in m.leaves <==> k in m0.leaves {}
    forall g | 0 <= g < |m.pmm.used| ensures m.pmm.used[g] == m0.pmm.used[g] && m.pmm.rc[g] == m0.pmm.rc[g] {
      assert g !in Frames(m, a, lo, lo);
      assert SameFrame(m0, m, g);
    }
    assert m.pmm.used == m0.pmm.used && m.pmm.rc == m0.pmm.rc;
  }

  // ---- ranges -------------------------------------------------------------------

  lemma MapOneExtra(m0: Machine, m: Machine, a: nat, lo: nat, hi: nat, n: nat, page: Page, w: bool, x: bool)
    requires Extra(m0, m, a, lo, hi) && Unmapped(m, a, hi, n) && n > 0
    ensures var one := MapShaped(m, Key(a, hi), page, w, x);
            if one.1 then Extra(m0, one.0, a, lo, hi + 1) && Unmapped(one.0, a, hi + 1, n - 1)
              else Extra(m0, one.0, a, lo, hi)
  {
    assert Key(a, hi) !in m.leaves;
    if AllocFrame(m).Some? { MapExtra(m0, m, a, lo, hi, page, w, x); } else { FailExtra(m0, m, a, lo, hi); }
  }

  lemma {:induction false} MapAllExtra(m0: Machine, m: Machine, a: nat, lo: nat, hi: nat, pages: seq<Page>, w: bool,
                                       x: bool)
    requires Extra(m0, m, a, lo, hi) && Unmapped(m, a, hi, |pages|)
    ensures Extra(m0, MapAll(m, a, hi, pages, w, x), a, lo, MapTop(m, a, hi, pages, w, x))
    decreases |pages|
  {
    if pages != [] {
      MapOneExtra(m0, m, a, lo, hi, |pages|, pages[0], w, x);
      var one := MapShaped(m, Key(a, hi), pages[0], w, x);
      if one.1 { MapAllExtra(m0, one.0, a, lo, hi + 1, pages[1..], w, x); }
    }
  }

  lemma {:induction false} DropToExtra(m0: Machine, m: Machine, a: nat, lo: nat, hi: nat)
    requires Extra(m0, m, a, lo, hi)
    ensures Extra(m0, DropTo(m, a, lo, hi), a, hi, hi)
    decreases hi - lo
  {
    if lo < hi {
      DropExtra(m0, m, a, lo, hi);
      DropToExtra(m0, DropShaped(m, Key(a, lo)), a, lo + 1, hi);
    }
  }

  // ---- what is seen -------------------------------------------------------------

  /** `w2` is `w1` with the given pages at [b, b + |pages|) of space `a`. */
  ghost predicate Gained(w1: E.World, w2: E.World, a: nat, b: nat, pages: seq<Page>, w: bool, x: bool) {
    && w2.devices == w1.devices
    && forall k: Key {:trigger k in w2.pages} ::
         if Within(k, a, b, b + |pages|) then k in w2.pages && w2.pages[k] == E.Private(pages[k.vpn - b], w, x)
         else (k in w2.pages <==> k in w1.pages) && (k in w2.pages ==> w2.pages[k] == w1.pages[k])
  }

  lemma MapOneGains(m: Machine, a: nat, b: nat, n: nat, page: Page, w: bool, x: bool)
    requires Inv(m) && Unmapped(m, a, b, n) && n > 0
    ensures var (m1, ok) := MapShaped(m, Key(a, b), page, w, x);
            && Inv(m1)
            && (if ok then Abs(m1) == E.Map(Abs(m), Key(a, b), page, w, x) && Unmapped(m1, a, b + 1, n - 1)
                else Abs(m1) == Abs(m))
  {
    assert Key(a, b) !in m.leaves;
    if AllocFrame(m).None? { FailedRefines(m); } else { MapRefines(m, Key(a, b), page, w, x); }
  }

  /** The first page, and what is left to do. */
  lemma MapFirst(m: Machine, a: nat, b: nat, pages: seq<Page>, w: bool, x: bool) returns (m1: Machine, ok: bool)
    requires Inv(m) && Unmapped(m, a, b, |pages|) && pages != []
    ensures Inv(m1)
    ensures ok ==>
              && Abs(m1) == E.Map(Abs(m), Key(a, b), pages[0], w, x) && Unmapped(m1, a, b + 1, |pages| - 1)
              && MapAll(m, a, b, pages, w, x) == MapAll(m1, a, b + 1, pages[1..], w, x)
              && MapTop(m, a, b, pages, w, x) == MapTop(m1, a, b + 1, pages[1..], w, x)
    ensures !ok ==> Abs(m1) == Abs(m) && MapAll(m, a, b, pages, w, x) == m1 && MapTop(m, a, b, pages, w, x) == b
  {
    var one := MapShaped(m, Key(a, b), pages[0], w, x);
    MapOneGains(m, a, b, |pages|, pages[0], w, x);
    m1, ok := one.0, one.1;
  }

  /** Key `k` shows the first `n` of `pages`, mapped from `b` on, or what it showed. */
  ghost predicate ShowsAt(w1: E.World, w2: E.World, a: nat, b: nat, pages: seq<Page>, n: nat, w: bool, x: bool, k: Key)
    requires n <= |pages|
  {
    && w2.devices == w1.devices
    && if Within(k, a, b, b + n) then k in w2.pages && w2.pages[k] == E.Private(pages[k.vpn - b], w, x)
       else (k in w2.pages <==> k in w1.pages) && (k in w2.pages ==> w2.pages[k] == w1.pages[k])
  }

  lemma ShowsCons(w1: E.World, w2: E.World, w3: E.World, a: nat, b: nat, pages: seq<Page>, n: nat, w: bool, x: bool,
                  k: Key)
    requires 0 < n <= |pages| && w2 == E.Map(w1, Key(a, b), pages[0], w, x)
    requires ShowsAt(w2, w3, a, b + 1, pages[1..], n - 1, w, x, k)
    ensures ShowsAt(w1, w3, a, b, pages, n, w, x, k)
  {
    if k == Key(a, b) { assert !Within(k, a, b + 1, b + n); }
  }

  lemma {:induction false} MapAllShows(m: Machine, a: nat, b: nat, pages: seq<Page>, w: bool, x: bool, k: Key)
    requires Inv(m) && Unmapped(m, a, b, |pages|)
    ensures ShowsAt(Abs(m), Abs(MapAll(m, a, b, pages, w, x)), a, b, pages, MapTop(m, a, b, pages, w, x) - b, w, x, k)
    decreases |pages|
  {
    if pages != [] {
      var m1, ok := MapFirst(m, a, b, pages, w, x);
      if ok {
        MapAllShows(m1, a, b + 1, pages[1..], w, x, k);
        ShowsCons(Abs(m), Abs(m1), Abs(MapAll(m, a, b, pages, w, x)), a, b, pages,
                  MapTop(m, a, b, pages, w, x) - b, w, x, k);
      }
    }
  }

  lemma MapAllShowsAll(m: Machine, a: nat, b: nat, pages: seq<Page>, w: bool, x: bool)
    returns (w1: E.World, w2: E.World, n: nat)
    requires Inv(m) && Unmapped(m, a, b, |pages|)
    ensures w1 == Abs(m) && w2 == Abs(MapAll(m, a, b, pages, w, x)) && n == MapTop(m, a, b, pages, w, x) - b <= |pages|
    ensures forall k: Key :: ShowsAt(w1, w2, a, b, pages, n, w, x, k)
  {
    w1, w2, n := Abs(m), Abs(MapAll(m, a, b, pages, w, x)), MapTop(m, a, b, pages, w, x) - b;
    forall k: Key ensures ShowsAt(w1, w2, a, b, pages, n, w, x, k) { MapAllShows(m, a, b, pages, w, x, k); }
  }

  /** The pages mapped before memory ran out, if it did, and nothing else, are seen. */
  lemma MapAllGains(m: Machine, a: nat, b: nat, pages: seq<Page>, w: bool, x: bool)
    requires Inv(m) && Unmapped(m, a, b, |pages|)
    ensures Gained(Abs(m), Abs(MapAll(m, a, b, pages, w, x)), a, b, pages[..MapTop(m, a, b, pages, w, x) - b], w, x)
  {
    var w1, w2, n := MapAllShowsAll(m, a, b, pages, w, x);
    ShowsAll(w1, w2, a, b, pages, n, w, x);
  }

  lemma ShowsAll(w1: E.World, w2: E.World, a: nat, b: nat, pages: seq<Page>, n: nat, w: bool, x: bool)
    requires n <= |pages| && forall k: Key :: ShowsAt(w1, w2, a, b, pages, n, w, x, k)
    ensures Gained(w1, w2, a, b, pages[..n], w, x)
  {
    assert ShowsAt(w1, w2, a, b, pages, n, w, x, Key(a, b));
    forall k: Key
      ensures if Within(k, a, b, b + n) then k in w2.pages && w2.pages[k] == E.Private(pages[..n][k.vpn - b], w, x)
              else (k in w2.pages <==> k in w1.pages) && (k in w2.pages ==> w2.pages[k] == w1.pages[k])
    {
      assert ShowsAt(w1, w2, a, b, pages, n, w, x, k);
    }
  }

  lemma MapFitsGains(m: Machine, a: nat, b: nat, pages: seq<Page>, w: bool, x: bool)
    requires Inv(m) && Unmapped(m, a, b, |pages|) && MapFits(m, a, b, pages, w, x)
    ensures var m' := MapOrUndo(m, a, b, pages, w, x); Inv(m') && Gained(Abs(m), Abs(m'), a, b, pages, w, x)
  {
    MapAllGains(m, a, b, pages, w, x);
    ExtraStart(m, a, b);
    MapAllExtra(m, m, a, b, b, pages, w, x);
    assert pages[..|pages|] == pages;
  }

  // ---- unmapping ----------------------------------------------------------------

  /** `w2` is `w1` without the pages [lo, hi) of space `a`. */
  ghost predicate Lost(w1: E.World, w2: E.World, a: nat, lo: nat, hi: nat) {
    && w2.devices == w1.devices
    && forall k: Key {:trigger k in w2.pages} ::
         if Within(k, a, lo, hi) then k !in w2.pages
         else (k in w2.pages <==> k in w1.pages) && (k in w2.pages ==> w2.pages[k] == w1.pages[k])
  }

  lemma LostCons(w1: E.World, w2: E.World, w3: E.World, a: nat, lo: nat, hi: nat)
    requires lo < hi && w2 == E.Drop(w1, Key(a, lo)) && Lost(w2, w3, a, lo + 1, hi)
    ensures Lost(w1, w3, a, lo, hi)
  {
    forall k: Key ensures
      if Within(k, a, lo, hi) then k !in w3.pages
      else (k in w3.pages <==> k in w1.pages) && (k in w3.pages ==> w3.pages[k] == w1.pages[k])
    {
      assert k in w3.pages <==> k in w3.pages;
    }
  }

  /** munmap removes exactly the range, and keeps the counts exact. */
  lemma {:induction false} DropToLoses(m: Machine, a: nat, lo: nat, hi: nat)
    requires Inv(m)
    ensures Inv(DropTo(m, a, lo, hi)) && Lost(Abs(m), Abs(DropTo(m, a, lo, hi)), a, lo, hi)
    decreases hi - lo
  {
    if lo < hi {
      DropRefines(m, Key(a, lo));
      DropToLoses(DropShaped(m, Key(a, lo)), a, lo + 1, hi);
      LostCons(Abs(m), Abs(DropShaped(m, Key(a, lo))), Abs(DropTo(m, a, lo, hi)), a, lo, hi);
    }
  }

  // ---- failing ------------------------------------------------------------------

  lemma GainedThenLost(w1: E.World, w2: E.World, w3: E.World, a: nat, b: nat, pages: seq<Page>, w: bool, x: bool)
    requires Gained(w1, w2, a, b, pages, w, x) && Lost(w2, w3, a, b, b + |pages|)
    requires forall k :: k in w1.pages ==> !Within(k, a, b, b + |pages|)
    ensures w3 == w1
  {
    forall k: Key ensures (k in w3.pages <==> k in w1.pages) && (k in w3.pages ==> w3.pages[k] == w1.pages[k]) {
      assert k in w2.pages <==> k in w2.pages;
    }
    assert w3.pages == w1.pages;
  }

  lemma FailedMapFrames(m: Machine, a: nat, b: nat, pages: seq<Page>, w: bool, x: bool)
    requires Inv(m) && Unmapped(m, a, b, |pages|) && !MapFits(m, a, b, pages, w, x)
    ensures Inv(MapAll(m, a, b, pages, w, x)) && Restored(m, MapOrUndo(m, a, b, pages, w, x))
  {
    var m1, top := MapAll(m, a, b, pages, w, x), MapTop(m, a, b, pages, w, x);
    ExtraStart(m, a, b);
    MapAllExtra(m, m, a, b, b, pages, w, x);
    DropToExtra(m, m1, a, b, top);
    NothingExtra(m, DropTo(m1, a, b, top), a, top);
  }

  lemma FailedMapViews(m: Machine, a: nat, b: nat, pages: seq<Page>, w: bool, x: bool, m1: Machine, top: nat)
    requires Inv(m) && Unmapped(m, a, b, |pages|) && Inv(m1) && b <= top <= b + |pages|
    requires Gained(Abs(m), Abs(m1), a, b, pages[..top - b], w, x)
    ensures Inv(DropTo(m1, a, b, top)) && Abs(DropTo(m1, a, b, top)) == Abs(m)
  {
    DropToLoses(m1, a, b, top);
    GainedThenLost(Abs(m), Abs(m1), Abs(DropTo(m1, a, b, top)), a, b, pages[..top - b], w, x);
  }

  /** A mapping that runs out of memory part way gives back every page, bit and count,
      and every space still reads what it read. */
  lemma FailedMapRestores(m: Machine, a: nat, b: nat, pages: seq<Page>, w: bool, x: bool)
    requires Inv(m) && Unmapped(m, a, b, |pages|) && !MapFits(m, a, b, pages, w, x)
    ensures Inv(MapOrUndo(m, a, b, pages, w, x)) && Restored(m, MapOrUndo(m, a, b, pages, w, x))
    ensures Abs(MapOrUndo(m, a, b, pages, w, x)) == Abs(m)
  {
    FailedMapFrames(m, a, b, pages, w, x);
    MapAllGains(m, a, b, pages, w, x);
    FailedMapViews(m, a, b, pages, w, x, MapAll(m, a, b, pages, w, x), MapTop(m, a, b, pages, w, x));
  }

  // ---- mmap ---------------------------------------------------------------------

  /** mmap without MAP_FIXED: on success the pages appear in an unmapped range of the
      window and nothing else changes; on failure everything is as before. */
  lemma MmapFrames(m: Machine, a: nat, pages: seq<Page>, w: bool, x: bool, hint: nat, win: Window)
    requires Inv(m) && win.lo < win.hi && 0 < |pages|
    ensures var m', base := Mmap(m, a, pages, w, x, hint, win), MmapBase(m, a, pages, w, x, hint, win);
            && Inv(m')
            && (base.Some? ==>
                  && InWindow(win, base.value, |pages|) && Unmapped(m, a, base.value, |pages|)
                  && Gained(Abs(m), Abs(m'), a, base.value, pages, w, x))
            && (base.None? ==> Restored(m, m') && Abs(m') == Abs(m))
  {
    var gap := FindGap(m, a, |pages|, hint, win);
    if gap.Some? {
      GapIsFree(m, a, |pages|, hint, win);
      if MapFits(m, a, gap.value, pages, w, x) {
        MapFitsGains(m, a, gap.value, pages, w, x);
      } else {
        FailedMapRestores(m, a, gap.value, pages, w, x);
      }
    }
  }
}
