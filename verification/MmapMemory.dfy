/** Mapping fails for want of memory exactly when there are fewer free pages than asked
    for: no page is lost to the search, the order or the sharing of frames. */
module MmapMemory {
  import opened Prelude
  import P = PmmSpec
  import PP = PmmProps
  import opened CowSpec
  import opened CowProps
  import opened MmapSpec
  import opened MmapProps

  /** The free pages of the allocator. */
  function Free(m: Machine): int { |m.pmm.used| - m.pmm.count }

  lemma {:induction false} CountBound(u: seq<bool>)
    ensures PP.CountUsed(u) <= |u|
    ensures PP.CountUsed(u) == |u| <==> forall i :: 0 <= i < |u| ==> u[i]
  {
    if u != [] {
      var v := u[..|u| - 1];
      CountBound(v);
      assert forall i :: 0 <= i < |v| ==> v[i] == u[i];
      assert u == v + [u[|u| - 1]];
    }
  }

  /** A page can be had exactly when one is free. */
  lemma AllocIffFree(m: Machine)
    requires PP.Exact(m.pmm)
    ensures Free(m) >= 0 && (AllocFrame(m).Some? <==> Free(m) > 0)
  {
    var u := m.pmm.used;
    CountBound(u);
    PP.ClaimComplete(m.pmm, 1);
    if Free(m) > 0 {
      var i :| 0 <= i < |u| && !u[i];
      assert P.FreeRun(u, i, 1);
    }
    if AllocFrame(m).Some? { assert !u[P.ClaimStart(m.pmm, 1).value]; }
  }

  lemma MapTakesOne(m: Machine, k: Key, page: Page, w: bool, x: bool)
    requires PP.Exact(m.pmm)
    ensures var (m1, ok) := MapShaped(m, k, page, w, x);
            && Free(m) >= 0 && (ok <==> Free(m) > 0) && Free(m1) == Free(m) - (if ok then 1 else 0)
  {
    AllocIffFree(m);
    if AllocFrame(m).Some? {
      PP.ClaimExact(m.pmm, 1, -1);
      PP.ClaimComplete(m.pmm, 1);
      assert |AllocFrame(m).value.0.pmm.used| == |m.pmm.used|;
    }
  }

  lemma FirstTakesOne(m: Machine, a: nat, b: nat, pages: seq<Page>, w: bool, x: bool) returns (m1: Machine, ok: bool)
    requires Inv(m) && Unmapped(m, a, b, |pages|) && pages != []
    ensures Inv(m1) && Free(m) >= 0 && (ok <==> Free(m) > 0) && Free(m1) == Free(m) - (if ok then 1 else 0)
    ensures ok ==> Unmapped(m1, a, b + 1, |pages| - 1)
    ensures MapTop(m, a, b, pages, w, x) == if ok then MapTop(m1, a, b + 1, pages[1..], w, x) else b
  {
    MapTakesOne(m, Key(a, b), pages[0], w, x);
    MapOneGains(m, a, b, |pages|, pages[0], w, x);
    var one := MapShaped(m, Key(a, b), pages[0], w, x);
    m1, ok := one.0, one.1;
  }

  lemma {:induction false} MapTopIs(m: Machine, a: nat, b: nat, pages: seq<Page>, w: bool, x: bool)
    requires Inv(m) && Unmapped(m, a, b, |pages|)
    ensures Free(m) >= 0 && MapTop(m, a, b, pages, w, x) == b + Min(|pages|, Free(m))
    decreases |pages|
  {
    if pages == [] {
      AllocIffFree(m);
    } else {
      var m1, ok := FirstTakesOne(m, a, b, pages, w, x);
      if ok { MapTopIs(m1, a, b + 1, pages[1..], w, x); }
    }
  }

  /** mmap succeeds if and only if its search finds a gap and enough pages are free. */
  lemma MmapSucceedsIff(m: Machine, a: nat, pages: seq<Page>, w: bool, x: bool, hint: nat, win: Window)
    requires Inv(m) && win.lo < win.hi && 0 < |pages|
    ensures MmapBase(m, a, pages, w, x, hint, win).Some? <==>
              FindGap(m, a, |pages|, hint, win).Some? && |pages| <= Free(m)
  {
    if FindGap(m, a, |pages|, hint, win).Some? {
      GapIsFree(m, a, |pages|, hint, win);
      MapTopIs(m, a, FindGap(m, a, |pages|, hint, win).value, pages, w, x);
    }
  }
}
