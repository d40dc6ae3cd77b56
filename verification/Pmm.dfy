/** The in-place allocator: a bitmap, a count array and two counters,
    updated by the loops of kernel/pmm_core.c. */
module Pmm {
  import opened Prelude
  import S = PmmSpec

  class PageAllocator {
    const base: nat
    const pages: nat
    const bm: array<bool>
    const rc: array<nat>
    var count: int
    var next: nat

    ghost predicate Valid()
      reads this, bm, rc
    {
      && bm.Length == pages
      && rc.Length == pages
      && bm as object != rc as object
      && forall p :: 0 <= p < pages ==> rc[p] <= S.RC_MAX
    }

    ghost function Abs(): (s: S.State)
      reads this, bm, rc
    {
      S.State(bm[..], rc[..], count, next)
    }

    /** All pages used, no references: the architecture paints the free ranges. */
    constructor (base: nat, pages: nat)
      ensures Valid() && fresh(bm) && fresh(rc)
      ensures Abs() == S.Setup(pages)
    {
      this.base, this.pages := base, pages;
      bm := new bool[pages](i => true);
      rc := new nat[pages](i => 0);
      count, next := pages, 0;
    }

    /** The run-counting scan. Returns start + 1, and 0 for "none". */
    method Scan(from: nat, end: nat, n: nat) returns (r: nat)
      requires Valid() && end <= pages && n > 0
      ensures r == match S.LowestRun(bm[..], from, end, n) case None => 0 case Some(p) => p + 1
    {
      var run, start := 0, 0;
      var page := from;
      while page < end
        invariant from <= page && (page <= end || page == from)
        invariant run < n && run <= page - from
        invariant run > 0 ==> start == page - run
        invariant forall i :: page - run <= i < page ==> !bm[..][i]
        invariant run < page - from ==> bm[..][page - run - 1]
        invariant forall s: nat :: from <= s && s + n <= page ==> !S.FreeRun(bm[..], s, n)
      {
        if bm[page] {
          run := 0;
        } else {
          if run == 0 { start := page; }
          run := run + 1;
          if run == n {
            S.LowestRunUnique(bm[..], from, end, n, start);
            return start + 1;
          }
        }
        page := page + 1;
      }
      return 0;
    }

    /** Sets the bits of a run found free. */
    method SetRun(start: nat, n: nat)
      requires Valid() && start + n <= pages
      modifies bm
      ensures Valid() && bm[..] == S.Fill(old(bm[..]), start, n)
    {
      var i := 0;
      while i < n
        invariant 0 <= i <= n && Valid()
        invariant bm[..] == S.Fill(old(bm[..]), start, i)
        modifies bm
      {
        bm[start + i] := true;
        i := i + 1;
      }
    }

    /** The search of a claim: where the run starts, plus one; 0 when there is none.
        A run across the origin is found by extending the second scan. */
    method FindRun(n: nat) returns (start: nat)
      requires Valid() && n > 0 && next < pages
      ensures start == match S.ClaimStart(Abs(), n) case None => 0 case Some(p) => p + 1
    {
      if n >= S.BIG_PAGES {
        start := Scan(0, pages, n);
        return;
      }
      start := Scan(next, pages, n);
      if start == 0 {
        var tail := next + n - 1;
        if tail > pages { tail := pages; }
        start := Scan(0, tail, n);
      }
    }

    /** Returns the address of the claimed run, 0 when there is none. */
    method Claim(n: nat) returns (pa: nat)
      requires Valid()
      modifies this, bm
      ensures Valid()
      ensures Abs() == S.Claim(old(Abs()), n) && pa == Address(S.ClaimStart(old(Abs()), n))
    {
      if n == 0 || pages == 0 { return 0; }
      if next >= pages { next := 0; }
      var start := FindRun(n);
      if start == 0 { return 0; }
      start := start - 1;
      SetRun(start, n);
      count := count + n;
      if n < S.BIG_PAGES { next := start + n; }
      return base + start * PAGE_SIZE;
    }

    /** The number of the page holding `pa`; outside [0, pages) it is not managed. */
    function PageNo(pa: nat): int { (pa - base) / PAGE_SIZE }

    function Address(start: Option<nat>): nat {
      if start.None? then 0 else base + start.value * PAGE_SIZE
    }

    function PageOf(pa: nat): (r: Option<nat>)
      ensures r == if 0 <= PageNo(pa) < pages then Some(PageNo(pa)) else None
    {
      if pa < base then None
      else
        var p := (pa - base) / PAGE_SIZE;
        if p < pages then Some(p) else None
    }

    method ClearPage(p: nat)
      requires Valid() && p < pages
      modifies this, bm
      ensures Valid() && Abs() == S.ClearPage(old(Abs()), p)
    {
      if bm[p] { count := count - 1; }
      bm[p] := false;
    }

    method ClearRange(start: nat, n: nat)
      requires Valid()
      modifies this, bm
      ensures Valid() && Abs() == S.ClearRange(old(Abs()), start, n)
    {
      var i := 0;
      while i < n && start + i < pages
        invariant 0 <= i <= n && Valid()
        invariant S.ClearRange(Abs(), start + i, n - i) == S.ClearRange(old(Abs()), start, n)
        modifies this, bm
      {
        ClearPage(start + i);
        i := i + 1;
      }
    }

    method Release(pa: nat, n: nat)
      requires Valid()
      modifies this, bm
      ensures Valid() && Abs() == S.Release(old(Abs()), PageNo(pa), n)
    {
      var page := PageOf(pa);
      if page.None? { return; }
      if page.value < next { next := page.value; }
      ClearRange(page.value, n);
    }

    method SetRefs(first: nat, n: nat)
      requires Valid() && first + n <= pages
      modifies rc
      ensures Valid() && rc[..] == S.RcSetRange(old(rc[..]), first, n, 1)
    {
      var i := 0;
      while i < n
        invariant 0 <= i <= n && Valid()
        invariant rc[..] == S.RcSetRange(old(rc[..]), first, i, 1)
        modifies rc
      {
        rc[first + i] := 1;
        i := i + 1;
      }
    }

    method Alloc(n: nat) returns (pa: nat)
      requires Valid() && base % PAGE_SIZE == 0
      modifies this, bm, rc
      ensures Valid()
      ensures Abs() == S.Alloc(old(Abs()), n, PageNo(0))
      ensures pa == Address(S.ClaimStart(old(Abs()), n))
    {
      pa := Claim(n);
      if pa != 0 {
        SetRefs((pa - base) / PAGE_SIZE, n);
      }
    }

    method Free(pa: nat, n: nat)
      requires Valid()
      modifies this, bm, rc
      ensures Valid() && Abs() == S.Free(old(Abs()), PageNo(pa), n)
    {
      var i, a := 0, pa;
      while i < n
        invariant 0 <= i <= n && 0 <= a && PageNo(a) == PageNo(pa) + i && Valid()
        invariant S.Free(Abs(), PageNo(a), n - i) == S.Free(old(Abs()), PageNo(pa), n)
        modifies this, bm, rc
      {
        FreeOne(a);
        i, a := i + 1, a + PAGE_SIZE;
      }
    }

    method FreeOne(pa: nat)
      requires Valid()
      modifies this, bm, rc
      ensures Valid() && Abs() == S.FreeOne(old(Abs()), PageNo(pa))
    {
      var page := PageOf(pa);
      if page.None? { return; }
      var p := page.value;
      if rc[p] > 0 {
        rc[p] := rc[p] - 1;
        if rc[p] == 0 { Release(pa, 1); }
      }
    }

    method Incref(pa: nat)
      requires Valid()
      modifies rc
      ensures Valid() && Abs() == S.Incref(old(Abs()), PageNo(pa))
    {
      var page := PageOf(pa);
      if page.Some? && rc[page.value] < S.RC_MAX { rc[page.value] := rc[page.value] + 1; }
    }

    method GetRef(pa: nat) returns (ref: nat)
      requires Valid()
      ensures ref == S.GetRef(Abs(), PageNo(pa))
    {
      var page := PageOf(pa);
      ref := if page.Some? then rc[page.value] else 0;
    }

    /** Frees the pages wholly inside [pa, pa + bytes). */
    method MarkFree(pa: nat, bytes: nat)
      requires Valid()
      modifies this, bm
      ensures Valid()
      ensures Abs() == S.MarkFree(old(Abs()), PageNo(RoundUp(pa)), PagesBetween(RoundUp(pa), RoundDown(pa + bytes)))
    {
      var a, e := RoundUp(pa), RoundDown(pa + bytes);
      ghost var p0, n0 := PageNo(a), PagesBetween(a, e);
      while a < e
        invariant Valid() && (e - a) % PAGE_SIZE == 0
        invariant S.MarkFree(Abs(), PageNo(a), PagesBetween(a, e)) == S.MarkFree(old(Abs()), p0, n0)
        modifies this, bm
      {
        NextPage(a, e);
        var page := PageOf(a);
        if page.Some? && bm[page.value] { bm[page.value] := false; count := count - 1; }
        a := a + PAGE_SIZE;
      }
    }

    /** Takes every page that meets [pa, pa + bytes). */
    method MarkUsed(pa: nat, bytes: nat)
      requires Valid()
      modifies this, bm
      ensures Valid()
      ensures Abs() == S.MarkUsed(old(Abs()), PageNo(RoundDown(pa)), PagesBetween(RoundDown(pa), RoundUp(pa + bytes)))
    {
      var a, e := RoundDown(pa), RoundUp(pa + bytes);
      ghost var p0, n0 := PageNo(a), PagesBetween(a, e);
      while a < e
        invariant Valid() && (e - a) % PAGE_SIZE == 0
        invariant S.MarkUsed(Abs(), PageNo(a), PagesBetween(a, e)) == S.MarkUsed(old(Abs()), p0, n0)
        modifies this, bm
      {
        NextPage(a, e);
        var page := PageOf(a);
        if page.Some? && !bm[page.value] { bm[page.value] := true; count := count + 1; }
        a := a + PAGE_SIZE;
      }
    }

    /** Page arithmetic of one painting step. */
    lemma NextPage(a: nat, e: nat)
      requires a < e && (e - a) % PAGE_SIZE == 0
      ensures PageNo(a + PAGE_SIZE) == PageNo(a) + 1
      ensures PagesBetween(a, e) == PagesBetween(a + PAGE_SIZE, e) + 1
    {}

    method ReservePage(pa: nat) returns (ok: bool)
      requires Valid()
      modifies this, bm, rc
      ensures Valid() && Abs() == S.ReservePage(old(Abs()), PageNo(pa))
      ensures ok <==> Abs() != old(Abs())
    {
      ok := false;
      var page := PageOf(pa);
      if page.Some? && !bm[page.value] {
        bm[page.value] := true;
        count := count + 1;
        rc[page.value] := 1;
        ok := true;
      }
    }
  }

  function RoundUp(a: nat): nat { (a + PAGE_SIZE - 1) / PAGE_SIZE * PAGE_SIZE }
  function RoundDown(a: nat): nat { a / PAGE_SIZE * PAGE_SIZE }
  function PagesBetween(a: nat, e: nat): nat { if a < e then (e - a) / PAGE_SIZE else 0 }
}
