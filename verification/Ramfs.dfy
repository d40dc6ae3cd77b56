/** A file of the memory file system: scattered pages behind a table. */
module Ramfs {
  import opened Prelude
  import opened Words
  import opened Pages
  import opened RamfsSpec

  /** Pages that hold a table of `cap` eight-byte pointers. */
  function TablePages(cap: nat): nat { (cap * 8 + PAGE_SIZE - 1) / PAGE_SIZE }

  /** Pages that hold `n` bytes. */
  function PagesFor(n: nat): nat { (n + PAGE_SIZE - 1) / PAGE_SIZE }

  class RamFile {
    var pages: seq<array<Byte>>
    var tableCap: nat
    var size: nat
    /** The bytes of all pages in file order. */
    ghost var data: seq<Byte>
    /** Pages taken from the allocator and not given back. */
    ghost var taken: nat

    ghost predicate Valid()
      reads this, pages
    {
      && |data| == PAGE_SIZE * |pages| && size <= |data| && |pages| <= tableCap
      && taken == |pages| + TablePages(tableCap)
      && (forall p, q :: 0 <= p < q < |pages| ==> pages[p] != pages[q])
      && (forall p {:trigger PageOk(p)} :: 0 <= p < |pages| ==> PageOk(p))
    }

    ghost predicate PageOk(p: nat)
      requires p < |pages| && |data| == PAGE_SIZE * |pages|
      reads this, pages
    {
      pages[p].Length == PAGE_SIZE && pages[p][..] == data[PAGE_SIZE * p..PAGE_SIZE * p + PAGE_SIZE]
    }

    ghost function Abs(): File
      reads this
    {
      File(data, size)
    }

    constructor ()
      ensures Valid() && Abs() == File([], 0) && taken == 0
    {
      pages, tableCap, size, data, taken := [], 0, 0, [], 0;
    }

    /** Is there memory to hold `needed` bytes? `avail` says how many pages the allocator will
        give, `tableMemory` whether it will give a bigger table. */
    ghost predicate Fits(needed: nat, tableMemory: bool, avail: nat)
      reads this
    {
      needed <= PAGE_SIZE * |pages| ||
      ((tableMemory || PagesFor(needed) <= tableCap) && PagesFor(needed) - |pages| <= avail)
    }

    /** A bigger table, at least doubled, with the same pages. */
    method GrowTable(need: nat, memory: bool) returns (ok: bool)
      requires Valid()
      modifies this`tableCap, this`taken
      ensures Valid() && (ok ==> need <= tableCap) && (ok <==> memory || need <= old(tableCap))
    {
      if need <= tableCap { return true; }
      if !memory { return false; }
      var cap := if tableCap != 0 then tableCap * 2 else 4;
      while cap < need
        invariant cap > 0 && cap > tableCap
        decreases need - cap
      {
        cap := cap * 2;
      }
      taken := taken - TablePages(tableCap) + TablePages(cap);
      tableCap := cap;
      forall p | 0 <= p < |pages| ensures PageOk(p) { assert old(PageOk(p)); }
      ok := true;
    }

    method AddPage()
      requires Valid() && |pages| < tableCap
      modifies this`pages, this`data, this`taken
      ensures Valid() && Abs() == Grown(old(Abs()), PAGE_SIZE) && |pages| == |old(pages)| + 1
      ensures pages[..|old(pages)|] == old(pages) && fresh(pages[|old(pages)|])
    {
      var page := new Byte[PAGE_SIZE](_ => 0);
      assert page[..] == Zeros(PAGE_SIZE);
      pages := pages + [page];
      data := data + Zeros(PAGE_SIZE);
      taken := taken + 1;
      forall p | 0 <= p < |pages| ensures PageOk(p) {
        if p < |old(pages)| { assert old(PageOk(p)); }
      }
    }

    /** Room for `needed` bytes and no page more. When memory gives out the pages got so far
        stay. */
    method Grow(needed: nat, tableMemory: bool, avail: nat) returns (ok: bool, ghost room: nat)
      requires Valid()
      modifies this`pages, this`data, this`taken, this`tableCap
      ensures Valid() && Abs() == Grown(old(Abs()), room) && room % PAGE_SIZE == 0
      ensures |pages| >= |old(pages)| && pages[..|old(pages)|] == old(pages)
      ensures forall p :: |old(pages)| <= p < |pages| ==> fresh(pages[p])
      ensures ok <==> old(Fits(needed, tableMemory, avail))
      ensures ok ==> needed <= |data| && (room > 0 ==> |data| < needed + PAGE_SIZE)
      ensures needed <= old(|data|) ==> ok && room == 0
    {
      room := 0;
      assert data + Zeros(0) == data;
      if needed <= PAGE_SIZE * |pages| { return true, 0; }
      var need := PagesFor(needed);
      ok := GrowTable(need, tableMemory);
      if !ok { return; }
      ok, room := AddPages(need, avail);
    }

    method AddPages(need: nat, avail: nat) returns (ok: bool, ghost room: nat)
      requires Valid() && |pages| <= need <= tableCap
      modifies this`pages, this`data, this`taken
      ensures Valid() && Abs() == Grown(old(Abs()), room) && room == PAGE_SIZE * (|pages| - |old(pages)|)
      ensures |pages| >= |old(pages)| && pages[..|old(pages)|] == old(pages)
      ensures forall p :: |old(pages)| <= p < |pages| ==> fresh(pages[p])
      ensures ok <==> need - |old(pages)| <= avail
      ensures ok ==> |pages| == need
    {
      room := 0;
      assert data + Zeros(0) == data;
      var left := avail;
      while |pages| < need
        invariant |old(pages)| <= |pages| <= need <= tableCap && Valid()
        invariant left == avail - (|pages| - |old(pages)|)
        invariant pages[..|old(pages)|] == old(pages)
        invariant room == PAGE_SIZE * (|pages| - |old(pages)|) && Abs() == Grown(old(Abs()), room)
        invariant forall p :: |old(pages)| <= p < |pages| ==> fresh(pages[p])
        decreases need - |pages|
      {
        if left == 0 { return false, room; }
        ghost var before := pages;
        AddPage();
        assert forall p :: 0 <= p < |before| ==> pages[p] == before[p];
        assert Zeros(room) + Zeros(PAGE_SIZE) == Zeros(room + PAGE_SIZE);
        room := room + PAGE_SIZE;
        left := left - 1;
      }
      ok := true;
    }

    /** One page's part of a write. */
    method WriteChunk(pos: nat, src: seq<Byte>, from: nat, n: nat)
      requires Valid() && from + n <= |src| && pos % PAGE_SIZE + n <= PAGE_SIZE && pos + n <= |data|
      requires pos < |data|
      modifies this`data, pages
      ensures Valid() && data == Put(old(data), pos, src[from..from + n])
    {
      var p := pos / PAGE_SIZE;
      var at := pos % PAGE_SIZE;
      assert pos == PAGE_SIZE * p + at;
      assert p < |pages| && PageOk(p);
      ghost var was := data;
      CopyIn(pages[p], at, src, from, n);
      data := Put(data, pos, src[from..from + n]);
      forall q | 0 <= q < |pages| ensures PageOk(q) {
        assert old(PageOk(q));
        if q != p { assert pages[q] != pages[p]; }
        PutPage(was, pos, src[from..from + n], p, q);
      }
    }

    /** Write the pages' parts in turn. */
    method Fill(off: nat, src: seq<Byte>)
      requires Valid() && off + |src| <= |data|
      modifies this`data, pages
      ensures Valid() && data == Put(old(data), off, src)
    {
      var written := 0;
      assert Put(data, off, src[..0]) == data;
      while written < |src|
        invariant written <= |src| && Valid() && |data| == |old(data)|
        invariant data == Put(old(data), off, src[..written])
      {
        var pos := off + written;
        var chunk := PAGE_SIZE - pos % PAGE_SIZE;
        if chunk > |src| - written { chunk := |src| - written; }
        WriteChunk(pos, src, written, chunk);
        PutTwice(old(data), off, src, written, chunk);
        written := written + chunk;
      }
      assert src[..written] == src;
    }

    method SetSize(n: nat)
      requires Valid() && n <= |data|
      modifies this`size
      ensures Valid() && size == n
    {
      size := n;
      forall p | 0 <= p < |pages| ensures PageOk(p) { assert old(PageOk(p)); }
    }

    /** Truncation; growing it needs room, shrinking it clears nothing. The descriptor's
        offset is pulled back to the new end. */
    method Truncate(length: nat, offset: nat, tableMemory: bool, avail: nat)
      returns (ok: bool, newOffset: nat, ghost room: nat)
      requires Valid()
      modifies this`pages, this`data, this`taken, this`tableCap, this`size
      ensures Valid() && (length <= old(size) ==> ok && room == 0)
      ensures ok <==> length <= old(size) || old(Fits(length, tableMemory, avail))
      ensures newOffset == if ok && offset > length then length else offset
      ensures ok ==> length <= |old(data)| + room && Abs() == Truncated(Grown(old(Abs()), room), length)
      ensures !ok ==> Abs() == Grown(old(Abs()), room)
    {
      ok, newOffset, room := true, offset, 0;
      assert data + Zeros(0) == data;
      if length > size { ok, room := Grow(length, tableMemory, avail); }
      if !ok { return; }
      SetSize(length);
      if newOffset > size { newOffset := size; }
    }

    /** A write at `off`, or at the end with O_APPEND; -28 is ENOSPC. */
    method Write(offset: nat, append: bool, src: seq<Byte>, tableMemory: bool, avail: nat)
      returns (r: int, newOffset: nat, ghost room: nat)
      requires Valid()
      modifies this, pages
      ensures Valid() && var off := (if append then old(size) else offset);
              && (r >= 0 <==> old(Fits(off + |src|, tableMemory, avail)))
              && (r >= 0 ==> r == |src| && newOffset == off + |src| && off + |src| <= |old(data)| + room
                             && Abs() == Written(Grown(old(Abs()), room), off, src))
              && (r < 0 ==> r == -28 && newOffset == offset && Abs() == Grown(old(Abs()), room))
    {
      var off := if append then size else offset;
      var ok;
      ok, room := Grow(off + |src|, tableMemory, avail);
      if !ok { return -28, offset, room; }
      Fill(off, src);
      if off + |src| > size { SetSize(off + |src|); }
      r, newOffset := |src|, off + |src|;
    }

    method ReadChunk(pos: nat, n: nat) returns (part: seq<Byte>)
      requires Valid() && pos % PAGE_SIZE + n <= PAGE_SIZE && pos + n <= |data| && pos < |data|
      ensures part == data[pos..pos + n]
    {
      var p := pos / PAGE_SIZE;
      var at := pos % PAGE_SIZE;
      assert pos == PAGE_SIZE * p + at;
      assert p < |pages| && PageOk(p);
      part := pages[p][at..at + n];
      SliceSlice(data, PAGE_SIZE * p, PAGE_SIZE, at, n);
      assert part == pages[p][..][at..at + n];
    }

    /** Gather `n` bytes from `off`, page by page. */
    method Gather(off: nat, n: nat) returns (dest: seq<Byte>)
      requires Valid() && off + n <= |data|
      ensures dest == data[off..off + n]
    {
      dest := [];
      while |dest| < n
        invariant |dest| <= n && dest == data[off..off + |dest|]
        decreases n - |dest|
      {
        var pos := off + |dest|;
        var chunk := PAGE_SIZE - pos % PAGE_SIZE;
        if chunk > n - |dest| { chunk := n - |dest|; }
        var part := ReadChunk(pos, chunk);
        assert data[off..pos] + data[pos..pos + chunk] == data[off..pos + chunk];
        dest := dest + part;
      }
    }

    method Read(offset: nat, count: nat) returns (dest: seq<Byte>, newOffset: nat)
      requires Valid()
      ensures dest == ReadAt(Abs(), offset, count) && newOffset == offset + |dest|
    {
      if offset >= size { return [], offset; }
      var n := if count > size - offset then size - offset else count;
      dest := Gather(offset, n);
      newOffset := offset + n;
    }

    /** The contiguous copy made for exec. */
    method ExecCopy() returns (image: seq<Byte>)
      requires Valid()
      ensures image == Contents(Abs())
    {
      image := Gather(0, size);
    }

    /** Give back every page, in order, and the pages of the table. */
    method Free() returns (back: seq<array<Byte>>, table: nat)
      requires Valid()
      modifies this
      ensures Valid() && Abs() == File([], 0) && taken == 0
      ensures back == old(pages) && table == TablePages(old(tableCap)) && |back| + table == old(taken)
    {
      back := [];
      while |back| < |pages|
        invariant |back| <= |pages| && back == pages[..|back|]
        decreases |pages| - |back|
      {
        back := back + [pages[|back|]];
      }
      table := TablePages(tableCap);
      pages, tableCap, size, data, taken := [], 0, 0, [], 0;
    }
  }
}
