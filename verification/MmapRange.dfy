/** mprotect changes the protection of exactly its range; mmap with MAP_FIXED replaces
    exactly its range. */
module MmapRange {
  import opened Prelude
  import opened CowSpec
  import opened CowProps
  import opened MmapSpec
  import opened MmapProps
  import E = Eager

  // ---- mprotect -----------------------------------------------------------------

  /** `w2` is `w1` with protection `w`, `x` on the pages [lo, hi) of space `a`. */
  ghost predicate Reprotected(w1: E.World, w2: E.World, a: nat, lo: nat, hi: nat, w: bool, x: bool) {
    && w2.devices == w1.devices
    && forall k: Key {:trigger k in w2.pages} ::
         && (k in w2.pages <==> k in w1.pages)
         && (k in w2.pages ==>
               w2.pages[k] == if Within(k, a, lo, hi) then w1.pages[k].(w := w, x := x) else w1.pages[k])
  }

  lemma ReprotectedCons(w1: E.World, w2: E.World, w3: E.World, a: nat, lo: nat, hi: nat, w: bool, x: bool)
    requires lo < hi && w2 == E.Protect(w1, Key(a, lo), w, x) && Reprotected(w2, w3, a, lo + 1, hi, w, x)
    ensures Reprotected(w1, w3, a, lo, hi, w, x)
  {
    forall k: Key ensures
      && (k in w3.pages <==> k in w1.pages)
      && (k in w3.pages ==> w3.pages[k] == if Within(k, a, lo, hi) then w1.pages[k].(w := w, x := x) else w1.pages[k])
    {
      assert k in w3.pages <==> k in w3.pages;
    }
  }

  lemma {:induction false} ProtectToSets(m: Machine, a: nat, lo: nat, hi: nat, w: bool, x: bool)
    requires Inv(m)
    ensures Inv(ProtectTo(m, a, lo, hi, w, x))
    ensures Reprotected(Abs(m), Abs(ProtectTo(m, a, lo, hi, w, x)), a, lo, hi, w, x)
    decreases hi - lo
  {
    if lo < hi {
      var m1 := ProtectPage(m, Key(a, lo), w, x);
      ProtectRefines(m, Key(a, lo), w, x);
      ProtectToSets(m1, a, lo + 1, hi, w, x);
      ReprotectedCons(Abs(m), Abs(m1), Abs(ProtectTo(m, a, lo, hi, w, x)), a, lo, hi, w, x);
    }
  }

  /** Every page of a range without holes has the protection asked for, shared or not,
      and nothing else changes; with a hole anywhere nothing changes. */
  lemma MprotectExact(m: Machine, a: nat, b: nat, n: nat, w: bool, x: bool)
    requires Inv(m)
    ensures Inv(Mprotect(m, a, b, n, w, x))
    ensures Reprotected(Abs(m), Abs(Mprotect(m, a, b, n, w, x)), a, b, if Mapped(m, a, b, n) then b + n else b, w, x)
  {
    if Mapped(m, a, b, n) { ProtectToSets(m, a, b, b + n, w, x); }
  }

  /** What mremap will read of a page afterwards. */
  lemma MprotectReadsBack(m: Machine, a: nat, b: nat, n: nat, w: bool, x: bool, i: nat)
    requires Inv(m) && Mapped(m, a, b, n) && b <= i < b + n
    ensures PageProt(Mprotect(m, a, b, n, w, x), Key(a, i)) == Some((w, x))
  {
    var m' := Mprotect(m, a, b, n, w, x);
    MprotectExact(m, a, b, n, w, x);
    PageProtIsView(m', Key(a, i));
    assert Key(a, i) in m.leaves && Key(a, i) in Abs(m).pages;
    assert Key(a, i) in Abs(m').pages;
  }

  // ---- MAP_FIXED ----------------------------------------------------------------

  lemma LostThenGained(w1: E.World, w2: E.World, w3: E.World, a: nat, b: nat, pages: seq<Page>, w: bool, x: bool)
    requires Lost(w1, w2, a, b, b + |pages|) && Gained(w2, w3, a, b, pages, w, x)
    ensures Gained(w1, w3, a, b, pages, w, x)
  {
    forall k: Key ensures
      if Within(k, a, b, b + |pages|) then k in w3.pages && w3.pages[k] == E.Private(pages[k.vpn - b], w, x)
      else (k in w3.pages <==> k in w1.pages) && (k in w3.pages ==> w3.pages[k] == w1.pages[k])
    {
      assert k in w2.pages <==> k in w2.pages;
      assert k in w3.pages <==> k in w3.pages;
    }
  }

  lemma ClearedRange(m: Machine, a: nat, b: nat, n: nat)
    requires Inv(m)
    ensures var m1 := DropTo(m, a, b, b + n); Inv(m1) && Lost(Abs(m), Abs(m1), a, b, b + n) && Unmapped(m1, a, b, n)
  {
    var m1 := DropTo(m, a, b, b + n);
    DropToLoses(m, a, b, b + n);
    forall i | b <= i < b + n ensures Key(a, i) !in m1.leaves {
      assert Within(Key(a, i), a, b, b + n);
      assert Key(a, i) !in Abs(m1).pages;
    }
  }

  /** On success the range shows the new pages whatever it showed before, and nothing else
      changes. When memory runs out the range is left without pages. */
  lemma MmapAtReplaces(m: Machine, a: nat, b: nat, pages: seq<Page>, w: bool, x: bool, win: Window)
    requires Inv(m) && InWindow(win, b, |pages|)
    ensures Inv(MmapAt(m, a, b, pages, w, x, win))
    ensures if MmapAtFits(m, a, b, pages, w, x, win)
            then Gained(Abs(m), Abs(MmapAt(m, a, b, pages, w, x, win)), a, b, pages, w, x)
            else Lost(Abs(m), Abs(MmapAt(m, a, b, pages, w, x, win)), a, b, b + |pages|)
  {
    var m1 := DropTo(m, a, b, b + |pages|);
    ClearedRange(m, a, b, |pages|);
    if MapFits(m1, a, b, pages, w, x) {
      MapFitsGains(m1, a, b, pages, w, x);
      LostThenGained(Abs(m), Abs(m1), Abs(MapOrUndo(m1, a, b, pages, w, x)), a, b, pages, w, x);
    } else {
      FailedMapRestores(m1, a, b, pages, w, x);
    }
  }

  /** A failed call leaves every space seeing what it saw if and only if it was aimed at a
      range with no pages: the old pages go before memory is known to suffice. */
  lemma FailedMmapAtHarmlessIff(m: Machine, a: nat, b: nat, pages: seq<Page>, w: bool, x: bool, win: Window)
    requires Inv(m) && InWindow(win, b, |pages|) && !MmapAtFits(m, a, b, pages, w, x, win)
    ensures Abs(MmapAt(m, a, b, pages, w, x, win)) == Abs(m) <==> Unmapped(m, a, b, |pages|)
  {
    MmapAtReplaces(m, a, b, pages, w, x, win);
    LostIsSameIff(Abs(m), Abs(MmapAt(m, a, b, pages, w, x, win)), a, b, b + |pages|);
    assert forall k: Key :: k in Abs(m).pages <==> k in m.leaves;
    if Unmapped(m, a, b, |pages|) {
      forall k: Key | Within(k, a, b, b + |pages|) ensures k !in Abs(m).pages { assert k == Key(a, k.vpn); }
    } else {
      var i :| b <= i < b + |pages| && Key(a, i) in m.leaves;
      assert Within(Key(a, i), a, b, b + |pages|);
    }
  }

  lemma LostIsSameIff(w1: E.World, w2: E.World, a: nat, lo: nat, hi: nat)
    requires Lost(w1, w2, a, lo, hi)
    ensures w2 == w1 <==> forall k: Key :: Within(k, a, lo, hi) ==> k !in w1.pages
  {
    if forall k: Key :: Within(k, a, lo, hi) ==> k !in w1.pages {
      forall k: Key ensures (k in w2.pages <==> k in w1.pages) && (k in w2.pages ==> w2.pages[k] == w1.pages[k]) {}
      assert w2.pages == w1.pages;
    }
  }
}
