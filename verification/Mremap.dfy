/** mremap keeps what the range held, zeroes what it gains, and touches nothing else. */
module Mremap {
  import opened Prelude
  import P = PmmSpec
  import opened CowSpec
  import opened CowProps
  import opened MmapSpec
  import opened MmapProps
  import E = Eager

  // ---- copying ------------------------------------------------------------------

  /** The bytes seen at `k`, private or device. */
  function BytesOf(w: E.World, k: Key): Page {
    if k !in w.pages then []
    else match w.pages[k] case Private(bytes, _, _) => bytes case Device(f, _, _) => Contents(w.devices, f)
  }

  /** Every page of the range has a frame of its own. */
  ghost predicate Sole(m: Machine, a: nat, lo: nat, hi: nat)
    requires Shaped(m)
  {
    forall i {:trigger Key(a, i)} :: lo <= i < hi ==> SoleAt(m, Key(a, i))
  }

  ghost predicate SoleAt(m: Machine, k: Key)
    requires Shaped(m)
  {
    k in m.leaves && m.leaves[k].frame !in m.dev && GetRef(m, m.leaves[k].frame) == 1
  }

  /** New pages are on frames of their own. */
  lemma ExtraIsSole(m0: Machine, m: Machine, a: nat, lo: nat, hi: nat)
    requires Extra(m0, m, a, lo, hi)
    ensures Sole(m, a, lo, hi)
  {
    forall i | lo <= i < hi ensures SoleAt(m, Key(a, i)) {
      var k := Key(a, i);
      assert Within(k, a, lo, hi) && k in m.leaves;
      assert FrameAt(m, a, i) in Frames(m, a, lo, hi);
      assert NewFrame(m0, m, m.leaves[k].frame);
    }
  }

  lemma BytesSeen(m: Machine, k: Key)
    requires k in m.leaves
    ensures BytesOf(Abs(m), k) == Contents(m.mem, m.leaves[k].frame)
  {
  }

  lemma CopyPageSeen(m: Machine, from: Key, dest: Key)
    requires Inv(m) && from in m.leaves && SoleAt(m, dest)
    ensures var m' := CopyPage(m, from, dest);
            && Inv(m') && m'.leaves == m.leaves && m'.pmm == m.pmm && m'.dev == m.dev && dest in Abs(m).pages
            && var old_ := Abs(m).pages[dest];
            Abs(m') == Abs(m).(pages := Abs(m).pages[dest := E.Private(BytesOf(Abs(m), from), old_.w, old_.x)])
  {
    var m' := CopyPage(m, from, dest);
    MemKeeps(m, m'.mem);
    BytesSeen(m, from);
    forall j | j in m.leaves && j != dest ensures m.leaves[j].frame != m.leaves[dest].frame { OneMapper(m, dest, j); }
    AbsUpdate(m, m', dest);
  }

  /** `w2` is `w1` with the bytes of [from, from + n) copied to [dest, dest + n). */
  ghost predicate Duplicated(w1: E.World, w2: E.World, a: nat, from: nat, dest: nat, n: nat) {
    && w2.devices == w1.devices
    && forall k: Key {:trigger k in w2.pages} ::
         if Within(k, a, dest, dest + n) then
           k in w1.pages && k in w2.pages
             && w2.pages[k] == E.Private(BytesOf(w1, Key(a, from + (k.vpn - dest))), w1.pages[k].w, w1.pages[k].x)
         else (k in w2.pages <==> k in w1.pages) && (k in w2.pages ==> w2.pages[k] == w1.pages[k])
  }

  predicate Apart(b: nat, c: nat, n: nat) { b + n <= c || c + n <= b }

  lemma DuplicatedCons(w1: E.World, w2: E.World, w3: E.World, a: nat, from: nat, dest: nat, n: nat)
    requires n > 0 && Key(a, dest) in w1.pages && Apart(from, dest, n)
    requires var k, old_ := Key(a, dest), w1.pages[Key(a, dest)];
             w2 == w1.(pages := w1.pages[k := E.Private(BytesOf(w1, Key(a, from)), old_.w, old_.x)])
    requires Duplicated(w2, w3, a, from + 1, dest + 1, n - 1)
    ensures Duplicated(w1, w3, a, from, dest, n)
  {
    forall k: Key ensures
      if Within(k, a, dest, dest + n) then
        k in w1.pages && k in w3.pages
          && w3.pages[k] == E.Private(BytesOf(w1, Key(a, from + (k.vpn - dest))), w1.pages[k].w, w1.pages[k].x)
      else (k in w3.pages <==> k in w1.pages) && (k in w3.pages ==> w3.pages[k] == w1.pages[k])
    {
      assert k in w3.pages <==> k in w3.pages;
      if Within(k, a, dest + 1, dest + n) {
        assert Within(k, a, dest + 1, dest + 1 + (n - 1));
        assert k in w2.pages && k != Key(a, dest);
        var src := Key(a, from + (k.vpn - dest));
        assert src == Key(a, from + 1 + (k.vpn - (dest + 1)));
        assert src != Key(a, dest);
        assert BytesOf(w2, src) == BytesOf(w1, src);
      }
    }
  }

  lemma {:induction false} CopyRangeSeen(m: Machine, a: nat, from: nat, dest: nat, n: nat)
    requires Inv(m) && Mapped(m, a, from, n) && Sole(m, a, dest, dest + n) && Apart(from, dest, n)
    ensures var m' := CopyRange(m, a, from, dest, n);
            Inv(m') && m'.leaves == m.leaves && m'.pmm == m.pmm && m'.dev == m.dev
              && Duplicated(Abs(m), Abs(m'), a, from, dest, n)
    decreases n
  {
    if n > 0 {
      assert Key(a, from) in m.leaves && SoleAt(m, Key(a, dest));
      CopyPageSeen(m, Key(a, from), Key(a, dest));
      var m1 := CopyPage(m, Key(a, from), Key(a, dest));
      forall i | dest + 1 <= i < dest + n ensures SoleAt(m1, Key(a, i)) { assert SoleAt(m, Key(a, i)); }
      CopyRangeSeen(m1, a, from + 1, dest + 1, n - 1);
      DuplicatedCons(Abs(m), Abs(m1), Abs(CopyRange(m, a, from, dest, n)), a, from, dest, n);
    }
  }

  // ---- the whole call -----------------------------------------------------------

  /** The old range is gone, if `gone` says so, or where it was; the new one starts with its bytes, goes on
      with zeros, and has the protection of the first old page; all else is as before. */
  ghost predicate MovedTo(w1: E.World, w2: E.World, a: nat, b: nat, have: nat, nb: nat, want: nat, zero: Page, w: bool,
                          x: bool, gone: bool) {
    && w2.devices == w1.devices
    && forall k: Key {:trigger k in w2.pages} ::
         if Within(k, a, nb, nb + have) then k in w2.pages
           && w2.pages[k] == E.Private(BytesOf(w1, Key(a, b + (k.vpn - nb))), w, x)
         else if Within(k, a, nb + have, nb + want) then k in w2.pages && w2.pages[k] == E.Private(zero, w, x)
         else if gone && Within(k, a, b, b + have) then k !in w2.pages
         else (k in w2.pages <==> k in w1.pages) && (k in w2.pages ==> w2.pages[k] == w1.pages[k])
  }

  lemma RangesApart(m: Machine, a: nat, b: nat, have: nat, nb: nat, want: nat)
    requires Mapped(m, a, b, have) && Unmapped(m, a, nb, want) && 0 < have < want
    ensures Apart(b, nb, have) && (b + have <= nb || nb + want <= b)
  {
    assert Key(a, b) in m.leaves && Key(a, nb) !in m.leaves;
  }

  lemma MoveParts(w1: E.World, w2: E.World, w3: E.World, w4: E.World, a: nat, b: nat, have: nat, nb: nat, want: nat,
                  zero: Page, w: bool, x: bool, gone: bool)
    requires 0 < have < want && (b + have <= nb || nb + want <= b)
    requires Gained(w1, w2, a, nb, Zeros(zero, want), w, x) && Duplicated(w2, w3, a, b, nb, have)
    requires if gone then Lost(w3, w4, a, b, b + have) else w4 == w3
    ensures MovedTo(w1, w4, a, b, have, nb, want, zero, w, x, gone)
  {
    forall k: Key ensures
      if Within(k, a, nb, nb + have) then k in w4.pages
        && w4.pages[k] == E.Private(BytesOf(w1, Key(a, b + (k.vpn - nb))), w, x)
      else if Within(k, a, nb + have, nb + want) then k in w4.pages && w4.pages[k] == E.Private(zero, w, x)
      else if gone && Within(k, a, b, b + have) then k !in w4.pages
      else (k in w4.pages <==> k in w1.pages) && (k in w4.pages ==> w4.pages[k] == w1.pages[k])
    {
      MoveKey(w1, w2, w3, w4, a, b, have, nb, want, zero, w, x, gone, k);
    }
  }

  lemma MoveKey(w1: E.World, w2: E.World, w3: E.World, w4: E.World, a: nat, b: nat, have: nat, nb: nat, want: nat,
                zero: Page, w: bool, x: bool, gone: bool, k: Key)
    requires 0 < have < want && (b + have <= nb || nb + want <= b)
    requires Gained(w1, w2, a, nb, Zeros(zero, want), w, x) && Duplicated(w2, w3, a, b, nb, have)
    requires if gone then Lost(w3, w4, a, b, b + have) else w4 == w3
    ensures if Within(k, a, nb, nb + have) then k in w4.pages
            && w4.pages[k] == E.Private(BytesOf(w1, Key(a, b + (k.vpn - nb))), w, x)
            else if Within(k, a, nb + have, nb + want) then k in w4.pages && w4.pages[k] == E.Private(zero, w, x)
            else if gone && Within(k, a, b, b + have) then k !in w4.pages
            else (k in w4.pages <==> k in w1.pages) && (k in w4.pages ==> w4.pages[k] == w1.pages[k])
  {
    assert k in w4.pages <==> k in w4.pages;
    assert k in w3.pages <==> k in w3.pages;
    assert k in w2.pages <==> k in w2.pages;
    assert Within(k, a, nb, nb + want) <==> Within(k, a, nb, nb + |Zeros(zero, want)|);
    if Within(k, a, nb, nb + have) {
      var src := Key(a, b + (k.vpn - nb));
      assert src in w2.pages <==> src in w1.pages;
      assert BytesOf(w2, src) == BytesOf(w1, src);
    }
  }

  /** Everything a move needs of the newly mapped range. */
  lemma NewRange(m: Machine, a: nat, b: nat, have: nat, nb: nat, pages: seq<Page>, w: bool, x: bool)
    requires Inv(m) && Mapped(m, a, b, have) && Unmapped(m, a, nb, |pages|) && 0 < have < |pages|
             && MapFits(m, a, nb, pages, w, x)
    ensures var m1 := MapAll(m, a, nb, pages, w, x);
            Inv(m1) && Mapped(m1, a, b, have) && Sole(m1, a, nb, nb + have)
              && Gained(Abs(m), Abs(m1), a, nb, pages, w, x)
  {
    MapFitsGains(m, a, nb, pages, w, x);
    NewRangeExtra(m, a, nb, pages, w, x);
    NewRangeParts(m, MapAll(m, a, nb, pages, w, x), a, b, have, nb, nb + |pages|);
  }

  lemma NewRangeExtra(m: Machine, a: nat, nb: nat, pages: seq<Page>, w: bool, x: bool)
    requires Inv(m) && Unmapped(m, a, nb, |pages|) && MapFits(m, a, nb, pages, w, x)
    ensures Extra(m, MapAll(m, a, nb, pages, w, x), a, nb, nb + |pages|)
  {
    ExtraStart(m, a, nb);
    MapAllExtra(m, m, a, nb, nb, pages, w, x);
  }

  lemma NewRangeParts(m: Machine, m1: Machine, a: nat, b: nat, have: nat, nb: nat, top: nat)
    requires Extra(m, m1, a, nb, top) && Mapped(m, a, b, have) && nb + have <= top
    ensures Mapped(m1, a, b, have) && Sole(m1, a, nb, nb + have)
  {
    ExtraIsSole(m, m1, a, nb, top);
    StillMapped(m, m1, a, b, have, nb, top);
    SoleFewer(m1, a, nb, nb + have, top);
  }

  lemma MoveKeeps(m: Machine, a: nat, b: nat, have: nat, nb: nat, want: nat, zero: Page, w: bool, x: bool, win: Window)
    requires Inv(m) && Mapped(m, a, b, have) && Unmapped(m, a, nb, want) && 0 < have < want
    requires MapFits(m, a, nb, Zeros(zero, want), w, x)
    ensures var m2 := Relocated(MapAll(m, a, nb, Zeros(zero, want), w, x), a, b, have, nb, win);
            Inv(m2) && MovedTo(Abs(m), Abs(m2), a, b, have, nb, want, zero, w, x, InWindow(win, b, have))
  {
    NewRange(m, a, b, have, nb, Zeros(zero, want), w, x);
    RangesApart(m, a, b, have, nb, want);
    CopyAndDrop(MapAll(m, a, nb, Zeros(zero, want), w, x), Abs(m), a, b, have, nb, want, zero, w, x, win);
  }

  lemma CopyAndDrop(m1: Machine, w1: E.World, a: nat, b: nat, have: nat, nb: nat, want: nat, zero: Page, w: bool,
                    x: bool, win: Window)
    requires Inv(m1) && Mapped(m1, a, b, have) && Sole(m1, a, nb, nb + have) && Apart(b, nb, have) && 0 < have < want
    requires (b + have <= nb || nb + want <= b) && Gained(w1, Abs(m1), a, nb, Zeros(zero, want), w, x)
    ensures var m2 := Relocated(m1, a, b, have, nb, win);
            Inv(m2) && MovedTo(w1, Abs(m2), a, b, have, nb, want, zero, w, x, InWindow(win, b, have))
  {
    CopyRangeSeen(m1, a, b, nb, have);
    var mid := CopyRange(m1, a, b, nb, have);
    DropToLoses(mid, a, b, b + have);
    MoveParts(w1, Abs(m1), Abs(mid), Abs(Relocated(m1, a, b, have, nb, win)), a, b, have, nb, want, zero, w, x,
              InWindow(win, b, have));
  }

  lemma StillMapped(m: Machine, m1: Machine, a: nat, b: nat, n: nat, lo: nat, hi: nat)
    requires Extra(m, m1, a, lo, hi) && Mapped(m, a, b, n)
    ensures Mapped(m1, a, b, n)
  {
    forall i | b <= i < b + n ensures Key(a, i) in m1.leaves { assert Key(a, i) in m.leaves; }
  }

  lemma SoleFewer(m: Machine, a: nat, lo: nat, mid: nat, hi: nat)
    requires Shaped(m) && Sole(m, a, lo, hi) && mid <= hi
    ensures Sole(m, a, lo, mid)
  {
  }

  /** How a resize of [b, b + have) that gave `r` changed `m` into `m'`. */
  ghost predicate Resized(m: Machine, m': Machine, a: nat, b: nat, have: nat, want: nat, w: bool, x: bool, zero: Page,
                          win: Window, r: Remap) {
    && Inv(m')
    && match r
       case Stays => if want <= have then Lost(Abs(m), Abs(m'), a, b + want, b + have)
                     else Gained(Abs(m), Abs(m'), a, b + have, Zeros(zero, want - have), w, x)
       case Moved(nb) =>
         InWindow(win, nb, want) && MovedTo(Abs(m), Abs(m'), a, b, have, nb, want, zero, w, x, InWindow(win, b, have))
       case Refused => Restored(m, m') && Abs(m') == Abs(m)
  }

  lemma ResizeKeeps(m: Machine, a: nat, b: nat, have: nat, want: nat, w: bool, x: bool, mayMove: bool, zero: Page,
                    hint: nat, win: Window)
    requires Inv(m) && Mapped(m, a, b, have) && have > 0 && want > 0 && win.lo < win.hi
    ensures Resized(m, Resize(m, a, b, have, want, w, x, mayMove, zero, hint, win), a, b, have, want, w, x, zero, win,
                    ResizeAnswer(m, a, b, have, want, w, x, mayMove, zero, hint, win))
  {
    if want <= have {
      DropToLoses(m, a, b + want, b + have);
    } else if InPlace(m, a, b, have, want, win) {
      GrowCase(m, a, b + have, Zeros(zero, want - have), w, x);
    } else if mayMove {
      MoveCase(m, a, b, have, want, w, x, zero, hint, win);
    }
  }

  /** mremap without MREMAP_FIXED, of any range: it stays with its first min(old, new)
      pages untouched and zero pages gained, or moves with them and with the logical
      protection of its first page; the old pages go too, unless they lie outside the
      window. A refusal changes nothing anyone sees, nor the page map, bitmap and counts;
      a range with a hole is refused. */
  lemma MremapKeeps(m: Machine, a: nat, b: nat, have: nat, want: nat, mayMove: bool, zero: Page, hint: nat, win: Window)
    requires Inv(m) && win.lo < win.hi
    ensures var m' := Mremap(m, a, b, have, want, mayMove, zero, hint, win);
            var r := Answer(m, a, b, have, want, mayMove, zero, hint, win);
            if Remappable(m, a, b, have, want) then
              var first := Key(a, b);
              && first in Abs(m).pages
              && Resized(m, m', a, b, have, want, Abs(m).pages[first].w, Abs(m).pages[first].x, zero, win, r)
            else r == Refused && m' == m
  {
    if Remappable(m, a, b, have, want) {
      assert Key(a, b) in m.leaves;
      PageProtIsView(m, Key(a, b));
      var (w, x) := FirstProt(m, a, b);
      ResizeKeeps(m, a, b, have, want, w, x, mayMove, zero, hint, win);
    }
  }

  lemma GrowCase(m: Machine, a: nat, b: nat, pages: seq<Page>, w: bool, x: bool)
    requires Inv(m) && Unmapped(m, a, b, |pages|)
    ensures Inv(MapOrUndo(m, a, b, pages, w, x))
    ensures if MapFits(m, a, b, pages, w, x)
            then Gained(Abs(m), Abs(MapOrUndo(m, a, b, pages, w, x)), a, b, pages, w, x)
            else Restored(m, MapOrUndo(m, a, b, pages, w, x)) && Abs(MapOrUndo(m, a, b, pages, w, x)) == Abs(m)
  {
    if MapFits(m, a, b, pages, w, x) {
      MapFitsGains(m, a, b, pages, w, x);
    } else {
      FailedMapRestores(m, a, b, pages, w, x);
    }
  }

  lemma MoveCase(m: Machine, a: nat, b: nat, have: nat, want: nat, w: bool, x: bool, zero: Page, hint: nat, win: Window)
    requires Inv(m) && Mapped(m, a, b, have) && 0 < have < want && win.lo < win.hi
    ensures var pages := Zeros(zero, want);
            var m1 := Mmap(m, a, pages, w, x, hint, win);
            match MmapBase(m, a, pages, w, x, hint, win)
            case None => Inv(m1) && Restored(m, m1) && Abs(m1) == Abs(m)
            case Some(nb) =>
              && InWindow(win, nb, want) && Inv(Relocated(m1, a, b, have, nb, win))
              && MovedTo(Abs(m), Abs(Relocated(m1, a, b, have, nb, win)), a, b, have, nb, want, zero, w, x,
                         InWindow(win, b, have))
  {
    var pages := Zeros(zero, want);
    MmapFrames(m, a, pages, w, x, hint, win);
    if MmapBase(m, a, pages, w, x, hint, win).Some? {
      MoveKeeps(m, a, b, have, MmapBase(m, a, pages, w, x, hint, win).value, want, zero, w, x, win);
    }
  }
}
