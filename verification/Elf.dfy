/** Loading segments page by page into a fresh address space. */
module Elf {
  import opened Prelude
  import opened Words
  import opened ElfSpec

  /** Memory agrees with the segments loaded so far. Rights may already be those of the
      whole file. */
  ghost predicate PageOk(file: seq<Byte>, g: Page, p: nat, done: seq<Segment>, all: seq<Segment>)
    requires AllInFile(file, done)
  {
    && |g.bytes| == PAGE_SIZE
    && (forall o {:trigger g.bytes[o]} :: 0 <= o < PAGE_SIZE ==> g.bytes[o] == Content(file, done, PAGE_SIZE * p + o))
    && (g.rights == Union(done, p) || g.rights == Union(all, p))
  }

  ghost predicate Loaded(file: seq<Byte>, pages: map<nat, Page>, done: seq<Segment>, all: seq<Segment>)
    requires AllInFile(file, done)
  {
    && (forall p {:trigger Covered(done, p)} :: p in pages <==> Covered(done, p))
    && (forall p {:trigger pages[p]} :: p in pages ==> PageOk(file, pages[p], p, done, all))
  }

  /** The segment loaded up to address `curr`. */
  function Part(s: Segment, curr: nat): Segment
    requires s.vaddr <= curr
  {
    s.(memsz := curr - s.vaddr)
  }

  /** One more page of a segment: from `curr` to the end of its page or of the segment. */
  ghost predicate Advances(s: Segment, curr: nat, p: nat, off: nat, size: nat) {
    && s.vaddr <= curr < s.vaddr + s.memsz && off < PAGE_SIZE && curr == PAGE_SIZE * p + off
    && 0 < size <= PAGE_SIZE - off && curr + size <= s.vaddr + s.memsz
    && (size == PAGE_SIZE - off || curr + size == s.vaddr + s.memsz)
  }

  lemma PartCovers(s: Segment, curr: nat, p: nat, off: nat, size: nat, q: nat)
    requires Advances(s, curr, p, off, size)
    ensures Covers(Part(s, curr + size), q) <==> Covers(Part(s, curr), q) || q == p
  {
  }

  /** How many bytes of the page come from the file. */
  function ToCopy(s: Segment, curr: nat, size: nat): nat {
    if curr < s.vaddr + s.filesz then Min(s.vaddr + s.filesz - curr, size) else 0
  }

  lemma LastOf(m: seq<Segment>, s: Segment)
    ensures (m + [s])[..|m + [s]| - 1] == m && (m + [s])[|m + [s]| - 1] == s
  {
  }

  lemma CoveredPush(m: seq<Segment>, s: Segment, q: nat)
    ensures Covered(m + [s], q) <==> Covered(m, q) || Covers(s, q)
  {
    var l := m + [s];
    if Covered(m, q) {
      var i :| 0 <= i < |m| && Covers(m[i], q);
      assert l[i] == m[i];
    }
    if Covers(s, q) { assert l[|m|] == s; }
    if Covered(l, q) {
      var i :| 0 <= i < |l| && Covers(l[i], q);
      assert i < |m| ==> l[i] == m[i];
    }
  }

  lemma UnionPush(m: seq<Segment>, s: Segment, q: nat)
    ensures Union(m + [s], q) == if Covers(s, q) then Both(Union(m, q), Rights(s.w, s.x)) else Union(m, q)
  {
    LastOf(m, s);
  }

  lemma {:induction false} UncoveredUnion(m: seq<Segment>, q: nat)
    requires !Covered(m, q)
    ensures Union(m, q) == Rights(false, false)
  {
    if m != [] {
      var front, last := m[..|m| - 1], m[|m| - 1];
      assert m == front + [last];
      CoveredPush(front, last, q);
      UncoveredUnion(front, q);
    }
  }

  lemma {:induction false} UncoveredZero(file: seq<Byte>, m: seq<Segment>, q: nat, o: nat)
    requires AllInFile(file, m) && !Covered(m, q) && o < PAGE_SIZE
    ensures Content(file, m, PAGE_SIZE * q + o) == 0
  {
    forall i | 0 <= i < |m| ensures !Contains(m[i], PAGE_SIZE * q + o) { assert !Covers(m[i], q); }
    OutsideIsZero(file, m, PAGE_SIZE * q + o);
  }

  lemma ContentPush(file: seq<Byte>, m: seq<Segment>, s: Segment, a: nat)
    requires AllInFile(file, m) && InFile(file, s)
    ensures AllInFile(file, m + [s])
    ensures Content(file, m + [s], a)
         == if s.vaddr <= a < s.vaddr + FileLen(s) then file[s.offset + (a - s.vaddr)] else Content(file, m, a)
  {
    LastOf(m, s);
  }

  /** The page after its part of the segment is copied in. */
  function Filled(file: seq<Byte>, g: Page, s: Segment, curr: nat, off: nat, size: nat): Page
    requires |g.bytes| == PAGE_SIZE && off + size <= PAGE_SIZE && s.vaddr <= curr && Readable(file, s, curr, size)
  {
    var n := ToCopy(s, curr, size);
    if n == 0 then g
    else
      var from := s.offset + (curr - s.vaddr);
      g.(bytes := Put(g.bytes, off, file[from..from + n]))
  }

  predicate Readable(file: seq<Byte>, s: Segment, curr: nat, size: nat)
    requires s.vaddr <= curr
  {
    ToCopy(s, curr, size) > 0 ==> s.offset + (curr - s.vaddr) + ToCopy(s, curr, size) <= |file|
  }

  lemma CopyInFile(file: seq<Byte>, s: Segment, curr: nat, p: nat, off: nat, size: nat)
    requires InFile(file, s) && Advances(s, curr, p, off, size)
    ensures Readable(file, s, curr, size)
    ensures InFile(file, Part(s, curr)) && InFile(file, Part(s, curr + size))
  {
  }

  /** Copying the page's share extends the contents by exactly that share. */
  lemma FilledContent(file: seq<Byte>, m: seq<Segment>, s: Segment, curr: nat, p: nat, off: nat, size: nat, g: Page,
                      o: nat)
    requires AllInFile(file, m) && InFile(file, s) && Advances(s, curr, p, off, size) && o < PAGE_SIZE
    requires |g.bytes| == PAGE_SIZE && Readable(file, s, curr, size)
    requires InFile(file, Part(s, curr)) && AllInFile(file, m + [Part(s, curr)])
    requires InFile(file, Part(s, curr + size)) && AllInFile(file, m + [Part(s, curr + size)])
    requires g.bytes[o] == Content(file, m + [Part(s, curr)], PAGE_SIZE * p + o)
    ensures Filled(file, g, s, curr, off, size).bytes[o] == Content(file, m + [Part(s, curr + size)], PAGE_SIZE * p + o)
  {
    var a := PAGE_SIZE * p + o;
    ContentPush(file, m, Part(s, curr), a);
    ContentPush(file, m, Part(s, curr + size), a);
    FilledByte(file, g, s, curr, p, off, size, o);
    NewBytes(s, curr, p, off, size, o);
  }

  lemma FilledByte(file: seq<Byte>, g: Page, s: Segment, curr: nat, p: nat, off: nat, size: nat, o: nat)
    requires |g.bytes| == PAGE_SIZE && o < PAGE_SIZE && Advances(s, curr, p, off, size) && Readable(file, s, curr, size)
    ensures Filled(file, g, s, curr, off, size).bytes[o]
         == if off <= o < off + ToCopy(s, curr, size) then file[s.offset + (PAGE_SIZE * p + o - s.vaddr)]
            else g.bytes[o]
  {
    var n := ToCopy(s, curr, size);
    if off <= o < off + n {
      var from := s.offset + (curr - s.vaddr);
      assert file[from..from + n][o - off] == file[from + (o - off)];
    }
  }

  /** The addresses gained are exactly those copied. */
  lemma NewBytes(s: Segment, curr: nat, p: nat, off: nat, size: nat, o: nat)
    requires Advances(s, curr, p, off, size) && o < PAGE_SIZE
    ensures var a := PAGE_SIZE * p + o;
            s.vaddr <= a < s.vaddr + FileLen(Part(s, curr + size))
            <==> s.vaddr <= a < s.vaddr + FileLen(Part(s, curr)) || off <= o < off + ToCopy(s, curr, size)
    ensures !(s.vaddr <= PAGE_SIZE * p + o < s.vaddr + FileLen(Part(s, curr)) && off <= o < off + ToCopy(s, curr, size))
  {
  }

  /** Other pages see no change. */
  lemma OtherContent(file: seq<Byte>, m: seq<Segment>, s: Segment, curr: nat, p: nat, off: nat, size: nat, q: nat,
                     o: nat)
    requires AllInFile(file, m) && InFile(file, s) && Advances(s, curr, p, off, size) && q != p && o < PAGE_SIZE
    requires InFile(file, Part(s, curr)) && AllInFile(file, m + [Part(s, curr)])
    requires InFile(file, Part(s, curr + size)) && AllInFile(file, m + [Part(s, curr + size)])
    ensures Content(file, m + [Part(s, curr + size)], PAGE_SIZE * q + o)
            == Content(file, m + [Part(s, curr)], PAGE_SIZE * q + o)
  {
    ContentPush(file, m, Part(s, curr), PAGE_SIZE * q + o);
    ContentPush(file, m, Part(s, curr + size), PAGE_SIZE * q + o);
  }

  /** The page to fill: a new zero page with this segment's rights, or the page already
      there with the rights of all segments on it. */
  function Target(pages: map<nat, Page>, p: nat, s: Segment, all: seq<Segment>): Page {
    if p in pages then pages[p].(rights := Union(all, p))
    else Page(seq(PAGE_SIZE, _ => 0), Rights(s.w, s.x))
  }

  lemma TargetOk(file: seq<Byte>, pages: map<nat, Page>, m: seq<Segment>, s: Segment, curr: nat, p: nat, off: nat,
                 size: nat, all: seq<Segment>)
    requires AllInFile(file, m) && InFile(file, s) && Advances(s, curr, p, off, size) && InFile(file, Part(s, curr))
    requires AllInFile(file, m + [Part(s, curr)]) && Loaded(file, pages, m + [Part(s, curr)], all)
    ensures var g := Target(pages, p, s, all);
            && |g.bytes| == PAGE_SIZE
            && (forall o {:trigger g.bytes[o]} :: 0 <= o < PAGE_SIZE ==>
                  g.bytes[o] == Content(file, m + [Part(s, curr)], PAGE_SIZE * p + o))
            && (g.rights == Union(m + [Part(s, curr + size)], p) || g.rights == Union(all, p))
  {
    var l := m + [Part(s, curr)];
    var g := Target(pages, p, s, all);
    if p in pages {
      assert PageOk(file, pages[p], p, l, all);
    } else {
      assert !Covered(l, p);
      forall o | 0 <= o < PAGE_SIZE ensures g.bytes[o] == Content(file, l, PAGE_SIZE * p + o) {
        UncoveredZero(file, l, p, o);
      }
      CoveredPush(m, Part(s, curr), p);
      UncoveredUnion(m, p);
      UnionPush(m, Part(s, curr + size), p);
      PartCovers(s, curr, p, off, size, p);
    }
  }

  lemma PageStep(file: seq<Byte>, pages: map<nat, Page>, m: seq<Segment>, s: Segment, curr: nat, p: nat, off: nat,
                 size: nat, all: seq<Segment>, q: nat)
    requires AllInFile(file, m) && InFile(file, s) && Advances(s, curr, p, off, size)
    requires Readable(file, s, curr, size)
    requires InFile(file, Part(s, curr)) && AllInFile(file, m + [Part(s, curr)])
             && Loaded(file, pages, m + [Part(s, curr)], all)
    requires InFile(file, Part(s, curr + size)) && AllInFile(file, m + [Part(s, curr + size)])
    requires |Target(pages, p, s, all).bytes| == PAGE_SIZE
    requires q == p || q in pages
    ensures var r := pages[p := Filled(file, Target(pages, p, s, all), s, curr, off, size)];
            PageOk(file, r[q], q, m + [Part(s, curr + size)], all)
  {
    var l := m + [Part(s, curr + size)];
    if q == p {
      TargetOk(file, pages, m, s, curr, p, off, size, all);
      var g := Target(pages, p, s, all);
      var f := Filled(file, g, s, curr, off, size);
      forall o | 0 <= o < PAGE_SIZE ensures f.bytes[o] == Content(file, l, PAGE_SIZE * p + o) {
        FilledContent(file, m, s, curr, p, off, size, g, o);
      }
    } else {
      var g := pages[q];
      assert PageOk(file, g, q, m + [Part(s, curr)], all);
      forall o | 0 <= o < PAGE_SIZE ensures g.bytes[o] == Content(file, l, PAGE_SIZE * q + o) {
        OtherContent(file, m, s, curr, p, off, size, q, o);
      }
      UnionPush(m, Part(s, curr), q);
      UnionPush(m, Part(s, curr + size), q);
      PartCovers(s, curr, p, off, size, q);
    }
  }

  lemma LoadStep(file: seq<Byte>, pages: map<nat, Page>, m: seq<Segment>, s: Segment, curr: nat, p: nat, off: nat,
                 size: nat, all: seq<Segment>)
    requires AllInFile(file, m) && InFile(file, s) && Advances(s, curr, p, off, size)
    requires Readable(file, s, curr, size)
    requires InFile(file, Part(s, curr)) && AllInFile(file, m + [Part(s, curr)])
             && Loaded(file, pages, m + [Part(s, curr)], all)
    requires InFile(file, Part(s, curr + size)) && AllInFile(file, m + [Part(s, curr + size)])
    requires |Target(pages, p, s, all).bytes| == PAGE_SIZE
    ensures Loaded(file, pages[p := Filled(file, Target(pages, p, s, all), s, curr, off, size)],
                   m + [Part(s, curr + size)], all)
  {
    var r := pages[p := Filled(file, Target(pages, p, s, all), s, curr, off, size)];
    forall q | q in r ensures PageOk(file, r[q], q, m + [Part(s, curr + size)], all) {
      PageStep(file, pages, m, s, curr, p, off, size, all, q);
    }
    forall q ensures q in r <==> Covered(m + [Part(s, curr + size)], q) {
      assert q in pages <==> Covered(m + [Part(s, curr)], q);
      CoveredPush(m, Part(s, curr), q);
      CoveredPush(m, Part(s, curr + size), q);
      PartCovers(s, curr, p, off, size, q);
    }
  }

  /** All that the loop needs of one page. */
  lemma NextStep(file: seq<Byte>, pages: map<nat, Page>, m: seq<Segment>, s: Segment, curr: nat, p: nat, off: nat,
                 size: nat, all: seq<Segment>)
    requires AllInFile(file, m) && InFile(file, s) && Advances(s, curr, p, off, size) && InFile(file, Part(s, curr))
    requires AllInFile(file, m + [Part(s, curr)]) && Loaded(file, pages, m + [Part(s, curr)], all)
    ensures InFile(file, Part(s, curr + size)) && AllInFile(file, m + [Part(s, curr + size)])
    ensures Readable(file, s, curr, size) && |Target(pages, p, s, all).bytes| == PAGE_SIZE
    ensures p in pages ==> |pages[p].bytes| == PAGE_SIZE
    ensures Loaded(file, pages[p := Filled(file, Target(pages, p, s, all), s, curr, off, size)],
                   m + [Part(s, curr + size)], all)
  {
    CopyInFile(file, s, curr, p, off, size);
    ContentPush(file, m, Part(s, curr + size), 0);
    TargetOk(file, pages, m, s, curr, p, off, size, all);
    LoadStep(file, pages, m, s, curr, p, off, size, all);
  }

  lemma LoadStart(file: seq<Byte>, pages: map<nat, Page>, m: seq<Segment>, s: Segment, all: seq<Segment>)
    requires AllInFile(file, m) && InFile(file, s) && Loaded(file, pages, m, all)
    ensures AllInFile(file, m + [Part(s, s.vaddr)]) && Loaded(file, pages, m + [Part(s, s.vaddr)], all)
  {
    var l := m + [Part(s, s.vaddr)];
    ContentPush(file, m, Part(s, s.vaddr), 0);
    forall q ensures q in pages <==> Covered(l, q) {
      assert q in pages <==> Covered(m, q);
      CoveredPush(m, Part(s, s.vaddr), q);
    }
    forall q | q in pages ensures PageOk(file, pages[q], q, l, all) {
      var g := pages[q];
      assert PageOk(file, g, q, m, all);
      UnionPush(m, Part(s, s.vaddr), q);
      forall o | 0 <= o < PAGE_SIZE ensures g.bytes[o] == Content(file, l, PAGE_SIZE * q + o) {
        ContentPush(file, m, Part(s, s.vaddr), PAGE_SIZE * q + o);
      }
    }
  }

  // ---- how much memory is needed ------------------------------------------------

  /** Some page of the segments up to `s` is not there, and no page is too many. */
  ghost predicate Misses(pages: map<nat, Page>, m: seq<Segment>, s: Segment) {
    && (forall q :: q in pages ==> Covered(m + [s], q))
    && exists p: nat :: p !in pages && Covered(m + [s], p)
  }

  lemma MissedPage(pages: map<nat, Page>, m: seq<Segment>, s: Segment, curr: nat, p: nat, off: nat, size: nat)
    requires Advances(s, curr, p, off, size) && p !in pages
    requires forall q {:trigger Covered(m + [Part(s, curr)], q)} :: q in pages <==> Covered(m + [Part(s, curr)], q)
    ensures Misses(pages, m, s)
  {
    CoveredPush(m, s, p);
    assert Covered(m + [s], p);
    forall q | q in pages ensures Covered(m + [s], q) {
      assert Covered(m + [Part(s, curr)], q);
      CoveredPush(m, Part(s, curr), q);
      CoveredPush(m, s, q);
    }
  }

  lemma Fewer(a: set<nat>, b: set<nat>)
    requires a <= b
    ensures |a| <= |b| && (a != b ==> |a| < |b|)
  {
    assert |b - a| + |a| == |b| by { assert (b - a) + a == b; }
    assert a != b ==> b - a != {};
  }

  lemma CoveredPrefix(segs: seq<Segment>, i: nat, q: nat)
    requires i < |segs| && Covered(segs[..i] + [segs[i]], q)
    ensures Covered(segs, q)
  {
    var l := segs[..i] + [segs[i]];
    var j :| 0 <= j < |l| && Covers(l[j], q);
    assert l[j] == segs[j];
  }

  lemma NotEnough(pages: map<nat, Page>, segs: seq<Segment>, i: nat)
    requires i < |segs| && Misses(pages, segs[..i], segs[i])
    ensures |pages| < |Touched(segs)|
  {
    forall q | q in pages ensures q in Touched(segs) {
      CoveredPrefix(segs, i, q);
      TouchedIffCovered(segs, q);
    }
    var p: nat :| p !in pages && Covered(segs[..i] + [segs[i]], p);
    CoveredPrefix(segs, i, p);
    TouchedIffCovered(segs, p);
    Fewer(pages.Keys, Touched(segs));
  }

  lemma LoadedTouches(file: seq<Byte>, pages: map<nat, Page>, segs: seq<Segment>)
    requires AllInFile(file, segs) && Loaded(file, pages, segs, segs)
    ensures |pages| == |Touched(segs)|
  {
    forall q: nat ensures q in pages <==> q in Touched(segs) {
      TouchedIffCovered(segs, q);
      assert q in pages <==> Covered(segs, q);
    }
    assert pages.Keys == Touched(segs);
  }

  class AddressSpace {
    var pages: map<nat, Page>

    constructor ()
      ensures pages == map[]
    {
      pages := map[];
    }

    /** The rights of all segments on page `p`, or-ed together. */
    method MergedRights(segs: seq<Segment>, p: nat) returns (r: Rights)
      ensures r == Union(segs, p)
    {
      r := Rights(false, false);
      var i := 0;
      while i < |segs|
        invariant i <= |segs| && r == Union(segs[..i], p)
      {
        var s := segs[i];
        UnionPush(segs[..i], s, p);
        assert segs[..i + 1] == segs[..i] + [s];
        if s.memsz != 0 && s.vaddr + s.memsz > PAGE_SIZE * p && s.vaddr < PAGE_SIZE * p + PAGE_SIZE {
          r := Both(r, Rights(s.w, s.x));
        }
        i := i + 1;
      }
      assert segs[..i] == segs;
    }

    /** Map the page or widen its rights, then copy its share of the file. */
    method LoadPage(file: seq<Byte>, s: Segment, all: seq<Segment>, curr: nat, p: nat, off: nat, size: nat,
                    memory: bool)
      returns (ok: bool)
      requires s.vaddr <= curr && off + size <= PAGE_SIZE && Readable(file, s, curr, size)
      requires p in pages ==> |pages[p].bytes| == PAGE_SIZE
      modifies this
      ensures ok == (memory || p in old(pages))
      ensures pages == if ok then old(pages)[p := Filled(file, Target(old(pages), p, s, all), s, curr, off, size)]
              else old(pages)
    {
      if p !in pages {
        if !memory { return false; }
        pages := pages[p := Page(seq(PAGE_SIZE, _ => 0), Rights(s.w, s.x))];
      } else {
        var r := MergedRights(all, p);
        pages := pages[p := pages[p].(rights := r)];
      }
      if curr < s.vaddr + s.filesz {
        var n := s.vaddr + s.filesz - curr;
        if n > size { n := size; }
        if n > 0 {
          var from := s.offset + (curr - s.vaddr);
          pages := pages[p := pages[p].(bytes := Put(pages[p].bytes, off, file[from..from + n]))];
        }
      }
      ok := true;
    }

    /** The rest of the page at `curr`. */
    method LoadNext(file: seq<Byte>, s: Segment, ghost m: seq<Segment>, all: seq<Segment>, curr: nat, memory: nat)
      returns (ok: bool, left: nat, next: nat)
      requires AllInFile(file, m) && InFile(file, s) && s.vaddr <= curr < s.vaddr + s.memsz
               && InFile(file, Part(s, curr))
      requires AllInFile(file, m + [Part(s, curr)]) && Loaded(file, pages, m + [Part(s, curr)], all)
      modifies this
      ensures curr < next <= s.vaddr + s.memsz && InFile(file, Part(s, next)) && AllInFile(file, m + [Part(s, next)])
      ensures ok ==> Loaded(file, pages, m + [Part(s, next)], all)
      ensures left + |pages| == memory + |old(pages)|
      ensures !ok ==> left == 0 && pages == old(pages) && Misses(pages, m, s)
    {
      var p := curr / PAGE_SIZE;
      var off := curr - PAGE_SIZE * p;
      var size := PAGE_SIZE - off;
      if curr + size > s.vaddr + s.memsz { size := s.vaddr + s.memsz - curr; }
      assert Advances(s, curr, p, off, size);
      next, left := curr + size, memory;
      NextStep(file, pages, m, s, curr, p, off, size, all);
      var isNew := p !in pages;
      ok := LoadPage(file, s, all, curr, p, off, size, left > 0);
      if ok && isNew { left := left - 1; }
      if !ok { MissedPage(old(pages), m, s, curr, p, off, size); }
    }

    /** One segment, page by page. `memory` says how many pages the allocator will give. */
    method LoadSegment(file: seq<Byte>, s: Segment, ghost m: seq<Segment>, all: seq<Segment>, memory: nat)
      returns (ok: bool, left: nat)
      requires AllInFile(file, m) && InFile(file, s) && Loaded(file, pages, m, all)
      modifies this
      ensures AllInFile(file, m + [s]) && (ok ==> Loaded(file, pages, m + [s], all))
      ensures left + |pages| == memory + |old(pages)|
      ensures !ok ==> left == 0 && Misses(pages, m, s)
    {
      left := memory;
      LoadStart(file, pages, m, s, all);
      ContentPush(file, m, s, 0);
      var curr := s.vaddr;
      while curr < s.vaddr + s.memsz
        invariant s.vaddr <= curr <= s.vaddr + s.memsz && InFile(file, Part(s, curr))
        invariant AllInFile(file, m + [Part(s, curr)]) && Loaded(file, pages, m + [Part(s, curr)], all)
        invariant left + |pages| == memory + |old(pages)|
      {
        ok, left, curr := LoadNext(file, s, m, all, curr, left);
        if !ok { return; }
      }
      ok := true;
    }

    /** All segments in header order, as far as memory goes: they are loaded if and only if
        there are as many free pages as they touch. The code does not tell its caller. */
    method Load(file: seq<Byte>, segs: seq<Segment>, memory: nat) returns (ok: bool)
      requires pages == map[] && AllInFile(file, segs)
      modifies this
      ensures ok ==> Loaded(file, pages, segs, segs)
      ensures ok <==> |Touched(segs)| <= memory
    {
      var left: nat := memory;
      var i := 0;
      assert segs[..0] == [];
      while i < |segs|
        invariant i <= |segs| && AllInFile(file, segs[..i]) && Loaded(file, pages, segs[..i], segs)
        invariant left + |pages| == memory
      {
        assert InFile(file, segs[i]);
        assert segs[..i + 1] == segs[..i] + [segs[i]];
        ok, left := LoadSegment(file, segs[i], segs[..i], segs, left);
        if !ok {
          NotEnough(pages, segs, i);
          return;
        }
        i := i + 1;
      }
      assert segs[..i] == segs;
      LoadedTouches(file, pages, segs);
      ok := true;
    }
  }

  lemma ContainedIsCovered(segs: seq<Segment>, i: nat, p: nat, o: nat)
    requires i < |segs| && o < PAGE_SIZE && Contains(segs[i], PAGE_SIZE * p + o)
    ensures Covered(segs, p)
  {
    assert Covers(segs[i], p);
  }

  /** After a successful load of disjoint segments, in any header order, and for every
      page `p` and offset `o`: exactly the touched pages are mapped; a page's rights are
      the union over all segments that touch it; a byte inside a segment is its file
      byte or zero; and a byte inside none is zero. */
  lemma LoadIsExact(file: seq<Byte>, pages: map<nat, Page>, segs: seq<Segment>, p: nat, o: nat)
    requires AllInFile(file, segs) && Disjoint(segs) && Loaded(file, pages, segs, segs) && o < PAGE_SIZE
    ensures p in pages <==> Covered(segs, p)
    ensures p in pages ==> |pages[p].bytes| == PAGE_SIZE
    ensures p in pages ==> (pages[p].rights.w <==> exists i :: 0 <= i < |segs| && Covers(segs[i], p) && segs[i].w)
    ensures p in pages ==> (pages[p].rights.x <==> exists i :: 0 <= i < |segs| && Covers(segs[i], p) && segs[i].x)
    ensures forall i :: 0 <= i < |segs| && Contains(segs[i], PAGE_SIZE * p + o) ==>
              p in pages && InFile(file, segs[i]) && pages[p].bytes[o] == OwnByte(file, segs[i], PAGE_SIZE * p + o)
    ensures p in pages && (forall i :: 0 <= i < |segs| ==> !Contains(segs[i], PAGE_SIZE * p + o))
            ==> pages[p].bytes[o] == 0
  {
    assert p in pages <==> Covered(segs, p);
    UnionIff(segs, p);
    if p in pages { assert PageOk(file, pages[p], p, segs, segs); }
    forall i | 0 <= i < |segs| && Contains(segs[i], PAGE_SIZE * p + o)
      ensures p in pages && InFile(file, segs[i]) && pages[p].bytes[o] == OwnByte(file, segs[i], PAGE_SIZE * p + o)
    {
      ContainedIsCovered(segs, i, p, o);
      DisjointContent(file, segs, i, PAGE_SIZE * p + o);
    }
    if p in pages && forall i :: 0 <= i < |segs| ==> !Contains(segs[i], PAGE_SIZE * p + o) {
      OutsideIsZero(file, segs, PAGE_SIZE * p + o);
    }
  }
}
