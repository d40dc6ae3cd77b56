/** The mapping system calls of one task, page by page over its address space. */
module Mmap {
  import opened Prelude
  import opened CowSpec
  import opened MmapSpec
  import Cow

  lemma MapStep(m: Machine, a: nat, b: nat, pages: seq<Page>, i: nat, w: bool, x: bool)
    requires Shaped(m) && i < |pages|
    ensures var one := MapShaped(m, Key(a, b), pages[i], w, x);
            if one.1 then MapAll(m, a, b, pages[i..], w, x) == MapAll(one.0, a, b + 1, pages[i + 1..], w, x)
                          && MapTop(m, a, b, pages[i..], w, x) == MapTop(one.0, a, b + 1, pages[i + 1..], w, x)
            else MapAll(m, a, b, pages[i..], w, x) == one.0 && MapTop(m, a, b, pages[i..], w, x) == b
  {
    assert pages[i..][1..] == pages[i + 1..];
  }

  /** The loop at page `i`: what is left leads where the whole would. */
  ghost predicate Mapping(m: Machine, a: nat, b: nat, pages: seq<Page>, i: nat, w: bool, x: bool, ok: bool,
                          goal: Machine, goalTop: nat)
    requires Shaped(m) && i <= |pages|
  {
    if ok then MapAll(m, a, b, pages[i..], w, x) == goal && MapTop(m, a, b, pages[i..], w, x) == goalTop
    else m == goal && b == goalTop
  }

  lemma MappingStart(m: Machine, a: nat, b: nat, pages: seq<Page>, w: bool, x: bool)
    requires Shaped(m)
    ensures Mapping(m, a, b, pages, 0, w, x, true, MapAll(m, a, b, pages, w, x), MapTop(m, a, b, pages, w, x))
  {
    assert pages[0..] == pages;
  }

  lemma MappingDone(m: Machine, a: nat, b: nat, pages: seq<Page>, i: nat, w: bool, x: bool, ok: bool, goal: Machine,
                    goalTop: nat)
    requires Shaped(m) && i <= |pages| && Mapping(m, a, b, pages, i, w, x, ok, goal, goalTop) && (ok ==> i == |pages|)
    ensures m == goal && b == goalTop
  {
    assert pages[|pages|..] == [];
  }

  lemma {:induction false} DropNothing(m: Machine, a: nat, lo: nat, hi: nat)
    requires Shaped(m) && forall i {:trigger Key(a, i)} :: lo <= i < hi ==> Key(a, i) !in m.leaves
    ensures DropTo(m, a, lo, hi) == m
    decreases hi - lo
  {
    if lo < hi {
      assert Key(a, lo) !in m.leaves;
      DropNothing(m, a, lo + 1, hi);
    }
  }

  class Mappings {
    const vm: Cow.AddressSpaces
    const space: nat
    const win: Window
    /** Where the next search starts. */
    var mmapEnd: nat

    ghost predicate Valid()
      reads this, vm, vm.alloc, vm.alloc.bm, vm.alloc.rc
    {
      vm.Valid() && 0 < win.lo < win.hi
    }

    ghost function Abs(): (m: Machine)
      requires Valid()
      reads this, vm, vm.alloc, vm.alloc.bm, vm.alloc.rc
      ensures Shaped(m)
    {
      vm.Abs()
    }

    constructor (vm: Cow.AddressSpaces, space: nat, win: Window)
      requires vm.Valid() && 0 < win.lo < win.hi
      ensures Valid() && this.vm == vm && this.space == space && this.win == win && mmapEnd == win.lo
    {
      this.vm, this.space, this.win := vm, space, win;
      mmapEnd := win.lo;
    }

    method RangeUnmapped(b: nat, n: nat) returns (r: bool)
      requires Valid()
      ensures r <==> Unmapped(Abs(), space, b, n)
    {
      var i := b;
      while i < b + n
        invariant b <= i <= b + n && Unmapped(Abs(), space, b, i - b)
      {
        if Key(space, i) in vm.leaves { return false; }
        i := i + 1;
      }
      r := true;
    }

    method RangeMapped(b: nat, n: nat) returns (r: bool)
      requires Valid()
      ensures r <==> Mapped(Abs(), space, b, n)
    {
      var i := b;
      while i < b + n
        invariant b <= i <= b + n && Mapped(Abs(), space, b, i - b)
      {
        if Key(space, i) !in vm.leaves { return false; }
        i := i + 1;
      }
      r := true;
    }

    method FindGapFrom(n: nat, start: nat, end: nat) returns (r: Option<nat>)
      requires Valid() && win.lo <= start
      ensures r == FirstGap(Abs(), space, n, start, end)
    {
      var b := start;
      while b + n <= end
        invariant start <= b
        invariant FirstGap(Abs(), space, n, b, end) == FirstGap(Abs(), space, n, start, end)
        decreases end - b
      {
        var free := RangeUnmapped(b, n);
        if free { return Some(b); }
        b := b + 1;
      }
      r := None;
    }

    method FindGap(n: nat, hint: nat) returns (r: Option<nat>)
      requires Valid()
      ensures r == MmapSpec.FindGap(Abs(), space, n, hint, win)
    {
      if n == 0 || n > win.hi - win.lo { return None; }
      var h := if hint < win.lo || hint >= win.hi then win.lo else hint;
      r := FindGapFrom(n, h, win.hi);
      if r.Some? { return; }
      if h > win.lo { r := FindGapFrom(n, win.lo, h); }
    }

    method DropRange(lo: nat, hi: nat)
      requires Valid()
      modifies vm, vm.alloc, vm.alloc.bm, vm.alloc.rc
      ensures Valid() && Abs() == DropTo(old(Abs()), space, lo, hi)
    {
      var i := lo;
      while i < hi
        invariant lo <= i && Valid() && (lo <= hi ==> i <= hi)
        invariant DropTo(Abs(), space, i, hi) == DropTo(old(Abs()), space, lo, hi)
      {
        vm.DropPage(Key(space, i));
        i := i + 1;
      }
    }

    method MapOne(k: Key, page: Page, w: bool, x: bool) returns (ok: bool)
      requires Valid()
      modifies vm, vm.alloc, vm.alloc.bm, vm.alloc.rc
      ensures Valid() && Abs() == MapShaped(old(Abs()), k, page, w, x).0 && ok == MapShaped(old(Abs()), k, page, w, x).1
    {
      ok := vm.MapPage(k, page, w, x);
    }

    /** Page `i`, at `v`: `next` is where the loop goes on, or where it stops. */
    method MapNext(v: nat, pages: seq<Page>, i: nat, w: bool, x: bool, ghost goal: Machine, ghost goalTop: nat)
      returns (ok: bool, next: nat, j: nat)
      requires Valid() && i < |pages| && Mapping(Abs(), space, v, pages, i, w, x, true, goal, goalTop)
      modifies vm, vm.alloc, vm.alloc.bm, vm.alloc.rc
      ensures Valid() && j == (if ok then i + 1 else i) && next == v + (j - i)
      ensures Mapping(Abs(), space, next, pages, j, w, x, ok, goal, goalTop)
    {
      ghost var m := Abs();
      ok := MapOne(Key(space, v), pages[i], w, x);
      next, j := v, i;
      if ok { next, j := v + 1, i + 1; }
      MapStep(m, space, v, pages, i, w, x);
    }

    method MapEach(b: nat, pages: seq<Page>, w: bool, x: bool, ghost goal: Machine, ghost goalTop: nat)
      returns (v: nat, i: nat, ok: bool)
      requires Valid() && Mapping(Abs(), space, b, pages, 0, w, x, true, goal, goalTop)
      modifies vm, vm.alloc, vm.alloc.bm, vm.alloc.rc
      ensures Valid() && i <= |pages| && (ok ==> i == |pages|)
      ensures Mapping(Abs(), space, v, pages, i, w, x, ok, goal, goalTop)
    {
      v, i, ok := b, 0, true;
      while ok && i < |pages|
        invariant i <= |pages| && Valid()
        invariant Mapping(Abs(), space, v, pages, i, w, x, ok, goal, goalTop)
        decreases |pages| - i, ok
      {
        ok, v, i := MapNext(v, pages, i, w, x, goal, goalTop);
      }
    }

    /** Map the pages in turn until one finds no memory; `top` is where that was. */
    method MapUpTo(b: nat, pages: seq<Page>, w: bool, x: bool) returns (top: nat)
      requires Valid()
      modifies vm, vm.alloc, vm.alloc.bm, vm.alloc.rc
      ensures Valid() && Abs() == MapAll(old(Abs()), space, b, pages, w, x)
              && top == MapTop(old(Abs()), space, b, pages, w, x)
    {
      ghost var goal, goalTop := MapAll(Abs(), space, b, pages, w, x), MapTop(Abs(), space, b, pages, w, x);
      MappingStart(Abs(), space, b, pages, w, x);
      var i, ok;
      top, i, ok := MapEach(b, pages, w, x, goal, goalTop);
      MappingDone(Abs(), space, top, pages, i, w, x, ok, goal, goalTop);
    }

    /** All the pages, or none: what was mapped before memory ran out is given back. */
    method MapPages(b: nat, pages: seq<Page>, w: bool, x: bool) returns (ok: bool)
      requires Valid()
      modifies vm, vm.alloc, vm.alloc.bm, vm.alloc.rc
      ensures Valid() && Abs() == MapOrUndo(old(Abs()), space, b, pages, w, x)
      ensures ok == MapFits(old(Abs()), space, b, pages, w, x)
    {
      var top := MapUpTo(b, pages, w, x);
      ok := top == b + |pages|;
      if !ok { DropRange(b, top); }
    }

    /** The base page, or None for ENOMEM. */
    method Map(pages: seq<Page>, w: bool, x: bool) returns (base: Option<nat>)
      requires Valid()
      modifies this, vm, vm.alloc, vm.alloc.bm, vm.alloc.rc
      ensures Valid() && base == MmapBase(old(Abs()), space, pages, w, x, old(mmapEnd), win)
      ensures Abs() == MmapSpec.Mmap(old(Abs()), space, pages, w, x, old(mmapEnd), win)
      ensures mmapEnd == match MmapSpec.FindGap(old(Abs()), space, |pages|, old(mmapEnd), win)
                         case None => old(mmapEnd)
                         case Some(b) => b + |pages|
    {
      base := FindGap(|pages|, mmapEnd);
      if base.None? { return; }
      mmapEnd := base.value + |pages|;
      var ok := MapPages(base.value, pages, w, x);
      if !ok { base := None; }
    }

    method ClearRange(b: nat, n: nat)
      requires Valid()
      modifies vm, vm.alloc, vm.alloc.bm, vm.alloc.rc
      ensures Valid() && Abs() == DropTo(old(Abs()), space, b, b + n)
    {
      var free := RangeUnmapped(b, n);
      if free { DropNothing(Abs(), space, b, b + n); } else { DropRange(b, b + n); }
    }

    /** MAP_FIXED: the range is cleared first unless it is clear already. */
    method MapAt(b: nat, pages: seq<Page>, w: bool, x: bool) returns (ok: bool)
      requires Valid()
      modifies this, vm, vm.alloc, vm.alloc.bm, vm.alloc.rc
      ensures Valid() && ok == MmapAtFits(old(Abs()), space, b, pages, w, x, win)
      ensures Abs() == MmapAt(old(Abs()), space, b, pages, w, x, win)
      ensures mmapEnd == if ok && b + |pages| > old(mmapEnd) then b + |pages| else old(mmapEnd)
    {
      ok := |pages| > 0 && win.lo <= b < win.hi && b + |pages| <= win.hi;
      if !ok { return; }
      ClearRange(b, |pages|);
      ok := MapPages(b, pages, w, x);
      if ok && b + |pages| > mmapEnd { mmapEnd := b + |pages|; }
    }

    /** mprotect; false stands for ENOMEM. */
    method Protect(b: nat, n: nat, w: bool, x: bool) returns (ok: bool)
      requires Valid()
      modifies vm
      ensures Valid() && ok == Mapped(old(Abs()), space, b, n)
      ensures Abs() == Mprotect(old(Abs()), space, b, n, w, x)
    {
      ok := RangeMapped(b, n);
      if !ok { return; }
      var i := b;
      while i < b + n
        invariant b <= i <= b + n && Valid()
        invariant ProtectTo(Abs(), space, i, b + n, w, x) == ProtectTo(old(Abs()), space, b, b + n, w, x)
      {
        vm.ProtectPage(Key(space, i), w, x);
        i := i + 1;
      }
    }

    /** Refused outside the window. */
    method Unmap(b: nat, n: nat) returns (ok: bool)
      requires Valid()
      modifies vm, vm.alloc, vm.alloc.bm, vm.alloc.rc
      ensures Valid() && ok == InWindow(win, b, n)
      ensures Abs() == if ok then DropTo(old(Abs()), space, b, b + n) else old(Abs())
    {
      ok := n > 0 && win.lo <= b < win.hi && b + n <= win.hi;
      if ok { DropRange(b, b + n); }
    }

    method CopyPages(b: nat, nb: nat, n: nat)
      requires Valid()
      modifies vm
      ensures Valid() && Abs() == CopyRange(old(Abs()), space, b, nb, n)
    {
      var i := 0;
      while i < n
        invariant i <= n && Valid()
        invariant CopyRange(Abs(), space, b + i, nb + i, n - i) == CopyRange(old(Abs()), space, b, nb, n)
      {
        var from, dest := Key(space, b + i), Key(space, nb + i);
        if from in vm.leaves && dest in vm.leaves {
          vm.mem := vm.mem[vm.leaves[dest].frame := Contents(vm.mem, vm.leaves[from].frame)];
        }
        i := i + 1;
      }
    }

    /** mremap: a range that is not wholly mapped is refused; the first page's protection
        is carried over. */
    method Remap(b: nat, have: nat, want: nat, mayMove: bool, zero: Page) returns (r: MmapSpec.Remap)
      requires Valid()
      modifies this, vm, vm.alloc, vm.alloc.bm, vm.alloc.rc
      ensures Valid() && r == Answer(old(Abs()), space, b, have, want, mayMove, zero, old(mmapEnd), win)
      ensures Abs() == Mremap(old(Abs()), space, b, have, want, mayMove, zero, old(mmapEnd), win)
    {
      if b == 0 || have == 0 || want == 0 { return Refused; }
      var whole := RangeMapped(b, have);
      if !whole { return Refused; }
      var w, x := true, false;
      var prot := vm.GetPageProt(Key(space, b));
      if prot.Some? { w, x := prot.value.0, prot.value.1; }
      r := Resize(b, have, want, w, x, mayMove, zero);
    }

    /** Shrink or grow a mapped range, moving it when allowed and needed. */
    method Resize(b: nat, have: nat, want: nat, w: bool, x: bool, mayMove: bool, zero: Page) returns (r: MmapSpec.Remap)
      requires Valid()
      modifies this, vm, vm.alloc, vm.alloc.bm, vm.alloc.rc
      ensures Valid() && r == ResizeAnswer(old(Abs()), space, b, have, want, w, x, mayMove, zero, old(mmapEnd), win)
      ensures Abs() == MmapSpec.Resize(old(Abs()), space, b, have, want, w, x, mayMove, zero, old(mmapEnd), win)
    {
      if want <= have {
        DropRange(b + want, b + have);
        return Stays;
      }
      var grow := want - have;
      var inPlace := win.lo <= b + have < win.hi && b + have + grow <= win.hi;
      if inPlace { inPlace := RangeUnmapped(b + have, grow); }
      if inPlace {
        var ok := MapPages(b + have, Zeros(zero, grow), w, x);
        return if ok then Stays else Refused;
      }
      if !mayMove { return Refused; }
      r := Move(b, have, want, w, x, zero);
    }

    method Move(b: nat, have: nat, want: nat, w: bool, x: bool, zero: Page) returns (r: MmapSpec.Remap)
      requires Valid()
      modifies this, vm, vm.alloc, vm.alloc.bm, vm.alloc.rc
      ensures Valid()
      ensures match MmapBase(old(Abs()), space, Zeros(zero, want), w, x, old(mmapEnd), win)
              case None =>
                && r == Refused
                && Abs() == MmapSpec.Mmap(old(Abs()), space, Zeros(zero, want), w, x, old(mmapEnd), win)
              case Some(nb) =>
                && r == Moved(nb)
                && Abs() == Relocated(MmapSpec.Mmap(old(Abs()), space, Zeros(zero, want), w, x, old(mmapEnd), win),
                                      space, b, have, nb, win)
    {
      var base := Map(Zeros(zero, want), w, x);
      if base.None? { return Refused; }
      CopyPages(b, base.value, have);
      var _ := Unmap(b, have);
      r := Moved(base.value);
    }
  }
}
