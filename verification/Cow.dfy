/** The copy-on-write code itself: leaves rewritten in place, the allocator called
    in the order of kernel/vm_cow.c, and page contents copied on a write fault. */
module Cow {
  import opened Prelude
  import P = PmmSpec
  import Pmm
  import opened CowSpec

  class AddressSpaces {
    const alloc: Pmm.PageAllocator
    var mem: map<int, Page>
    var leaves: map<Key, Leaf>
    ghost const dev: set<int>
    ghost const kept: set<int>

    ghost predicate Valid()
      reads this, alloc, alloc.bm, alloc.rc
    {
      && alloc.Valid() && alloc.base > 0 && alloc.base % PAGE_SIZE == 0
      && forall k :: k in leaves ==> alloc.base + leaves[k].frame * PAGE_SIZE >= 0
    }

    ghost function Abs(): (m: Machine)
      requires Valid()
      reads this, alloc, alloc.bm, alloc.rc
      ensures Shaped(m)
    {
      Machine(alloc.Abs(), mem, leaves, dev, kept)
    }

    constructor (alloc: Pmm.PageAllocator, ghost dev: set<int>, ghost kept: set<int>)
      requires alloc.Valid() && alloc.base > 0 && alloc.base % PAGE_SIZE == 0
      ensures Valid() && this.alloc == alloc && this.dev == dev && this.kept == kept && leaves == map[] && mem == map[]
    {
      this.alloc, this.dev, this.kept := alloc, dev, kept;
      mem, leaves := map[], map[];
    }

    /** The physical address in a leaf. */
    function Phys(f: int): (pa: nat)
      requires alloc.base + f * PAGE_SIZE >= 0
      ensures alloc.PageNo(pa) == f
    {
      alloc.base + f * PAGE_SIZE
    }

    method PageShared(f: int) returns (b: bool)
      requires Valid() && alloc.base + f * PAGE_SIZE >= 0
      ensures b <==> GetRef(Abs(), f) > 1
    {
      var ref := alloc.GetRef(Phys(f));
      b := ref > 1;
    }

    /** Gives `child` the parent's leaf; a writable one is marked on both sides. */
    method ShareLeaf(parent: Key, child: Key)
      requires Valid() && parent in leaves
      modifies this, alloc.rc
      ensures Valid() && Abs() == CowSpec.ShareLeaf(old(Abs()), parent, child)
    {
      var e := leaves[parent];
      var ref := alloc.GetRef(Phys(e.frame));
      if ref == 0 {
        leaves := leaves[child := e];
        return;
      }
      if e.w { e := MkCow(e); }
      leaves := leaves[parent := e];
      alloc.Incref(Phys(e.frame));
      leaves := leaves[child := e];
    }

    /** One frame from the allocator. */
    method NewFrame() returns (f: Option<int>)
      requires Valid()
      modifies alloc, alloc.bm, alloc.rc
      ensures Valid()
      ensures match AllocFrame(old(Abs()))
              case None => f == None && Abs() == Failed(old(Abs()))
              case Some((m, n)) => f == Some(n) && Abs() == m && alloc.base + n * PAGE_SIZE >= 0
    {
      var pa := alloc.Alloc(1);
      f := if pa == 0 then None else Some(alloc.PageNo(pa));
    }

    /** New leaf first, then the flush, and only then the old frame is let go. */
    method WriteFault(k: Key) returns (out: Outcome)
      requires Valid()
      modifies this, alloc, alloc.bm, alloc.rc
      ensures Valid() && (Abs(), out) == CowSpec.WriteFault(old(Abs()), k)
    {
      if k !in leaves { return NotCow; }
      var e := leaves[k];
      if !e.cow { return if e.w then Handled else NotCow; }
      var shared := PageShared(e.frame);
      if shared {
        var f := NewFrame();
        if f.None? { return NoMem; }
        mem := mem[f.value := Contents(mem, e.frame)];
        leaves := leaves[k := MkWrite(e, f.value)];
        alloc.FreeOne(Phys(e.frame));
      } else {
        leaves := leaves[k := MkWrite(e, e.frame)];
      }
      return Handled;
    }

    method ProtectPage(k: Key, w: bool, x: bool)
      requires Valid()
      modifies this
      ensures Valid() && Abs() == CowSpec.ProtectPage(old(Abs()), k, w, x)
    {
      if k !in leaves { return; }
      var cow := false;
      if w {
        var shared := PageShared(leaves[k].frame);
        cow := leaves[k].cow || shared;
      }
      leaves := leaves[k := Leaf(leaves[k].frame, w && !cow, x, false)];
      leaves := leaves[k := if cow then MkCow(leaves[k]) else leaves[k].(cow := false)];
    }

    method GetPageProt(k: Key) returns (prot: Option<(bool, bool)>)
      requires Valid()
      ensures prot == PageProt(Abs(), k)
    {
      if k !in leaves { return None; }
      var writable := leaves[k].w;
      if leaves[k].cow { writable := true; }
      return Some((writable, leaves[k].x));
    }

    /** Unmaps, and returns the frame to the allocator. */
    method DropPage(k: Key)
      requires Valid()
      modifies this, alloc, alloc.bm, alloc.rc
      ensures Valid() && Abs() == CowSpec.DropPage(old(Abs()), k)
    {
      if k !in leaves { return; }
      var f := leaves[k].frame;
      leaves := leaves - {k};
      alloc.FreeOne(Phys(f));
    }

    method MapPage(k: Key, page: Page, w: bool, x: bool) returns (ok: bool)
      requires Valid()
      modifies this, alloc, alloc.bm, alloc.rc
      ensures Valid() && (Abs(), ok) == CowSpec.MapPage(old(Abs()), k, page, w, x)
    {
      var f := NewFrame();
      if f.None? { return false; }
      mem := mem[f.value := page];
      leaves := leaves[k := Leaf(f.value, w, x, false)];
      return true;
    }
  }
}
