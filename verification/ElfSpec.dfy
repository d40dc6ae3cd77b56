/** What loading an ELF file's PT_LOAD segments should leave in memory. */
module ElfSpec {
  import opened Prelude
  import opened Words

  /** A loadable segment, with the load bias already added to its address. */
  datatype Segment = Segment(vaddr: nat, memsz: nat, filesz: nat, offset: nat, w: bool, x: bool)

  datatype Rights = Rights(w: bool, x: bool)

  datatype Page = Page(bytes: seq<Byte>, rights: Rights)

  /** Bytes that come from the file; the rest of the segment is zero. */
  function FileLen(s: Segment): nat { Min(s.filesz, s.memsz) }

  predicate Contains(s: Segment, a: nat) { s.vaddr <= a < s.vaddr + s.memsz }

  /** The segment touches page `p`. */
  predicate Covers(s: Segment, p: nat) {
    s.memsz != 0 && s.vaddr < PAGE_SIZE * p + PAGE_SIZE && PAGE_SIZE * p < s.vaddr + s.memsz
  }

  ghost predicate Covered(segs: seq<Segment>, p: nat) { exists i :: 0 <= i < |segs| && Covers(segs[i], p) }

  /** An address above every segment. */
  function Above(segs: seq<Segment>): nat {
    if segs == [] then 0
    else
      var s := segs[|segs| - 1];
      var rest := Above(segs[..|segs| - 1]);
      if rest < s.vaddr + s.memsz then s.vaddr + s.memsz else rest
  }

  /** The pages the segments touch. */
  ghost function Touched(segs: seq<Segment>): set<nat> { set p: nat | p < Above(segs) && Covered(segs, p) }

  lemma {:induction false} AboveAll(segs: seq<Segment>, i: nat)
    requires i < |segs|
    ensures segs[i].vaddr + segs[i].memsz <= Above(segs)
  {
    if i < |segs| - 1 { AboveAll(segs[..|segs| - 1], i); }
  }

  lemma TouchedIffCovered(segs: seq<Segment>, p: nat)
    ensures p in Touched(segs) <==> Covered(segs, p)
  {
    if Covered(segs, p) {
      var i :| 0 <= i < |segs| && Covers(segs[i], p);
      AboveAll(segs, i);
    }
  }

  function Both(a: Rights, b: Rights): Rights { Rights(a.w || b.w, a.x || b.x) }

  /** The union of the rights of all segments that touch page `p`. */
  function Union(segs: seq<Segment>, p: nat): Rights {
    if segs == [] then Rights(false, false)
    else
      var rest := Union(segs[..|segs| - 1], p);
      var s := segs[|segs| - 1];
      if Covers(s, p) then Both(rest, Rights(s.w, s.x)) else rest
  }

  /** A page is touched when an address of the segment lies in it. */
  lemma CoversIff(s: Segment, p: nat)
    ensures Covers(s, p) <==> exists a: nat :: PAGE_SIZE * p <= a < PAGE_SIZE * p + PAGE_SIZE && Contains(s, a)
  {
    if Covers(s, p) {
      var a := if s.vaddr < PAGE_SIZE * p then PAGE_SIZE * p else s.vaddr;
      assert Contains(s, a);
    }
  }

  /** A page is writable, or executable, if and only if some segment that touches it is. */
  lemma {:induction false} UnionIff(segs: seq<Segment>, p: nat)
    ensures Union(segs, p).w <==> exists i :: 0 <= i < |segs| && Covers(segs[i], p) && segs[i].w
    ensures Union(segs, p).x <==> exists i :: 0 <= i < |segs| && Covers(segs[i], p) && segs[i].x
  {
    if segs != [] {
      var rest, n := segs[..|segs| - 1], |segs| - 1;
      UnionIff(rest, p);
      assert forall i :: 0 <= i < n ==> rest[i] == segs[i];
      if Union(rest, p).w { var i :| 0 <= i < n && Covers(rest[i], p) && rest[i].w; assert Covers(segs[i], p); }
      if Union(rest, p).x { var i :| 0 <= i < n && Covers(rest[i], p) && rest[i].x; assert Covers(segs[i], p); }
      assert Covers(segs[n], p) ==> (segs[n].w ==> Union(segs, p).w) && (segs[n].x ==> Union(segs, p).x);
    }
  }

  /** The segments are inside the file. */
  predicate InFile(file: seq<Byte>, s: Segment) { s.offset + FileLen(s) <= |file| }

  ghost predicate AllInFile(file: seq<Byte>, segs: seq<Segment>) {
    forall i :: 0 <= i < |segs| ==> InFile(file, segs[i])
  }

  /** The byte at address `a` once the segments are loaded in order. */
  function Content(file: seq<Byte>, segs: seq<Segment>, a: nat): Byte
    requires AllInFile(file, segs)
  {
    if segs == [] then 0
    else
      var s := segs[|segs| - 1];
      assert InFile(file, s);
      if s.vaddr <= a < s.vaddr + FileLen(s) then file[s.offset + (a - s.vaddr)]
      else Content(file, segs[..|segs| - 1], a)
  }

  ghost predicate Disjoint(segs: seq<Segment>) {
    forall i, j, a :: 0 <= i < j < |segs| && Contains(segs[i], a) ==> !Contains(segs[j], a)
  }

  /** The segment's own byte at `a`. */
  function OwnByte(file: seq<Byte>, s: Segment, a: nat): Byte
    requires InFile(file, s) && Contains(s, a)
  {
    if a - s.vaddr < FileLen(s) then file[s.offset + (a - s.vaddr)] else 0
  }

  lemma {:induction false} OutsideIsZero(file: seq<Byte>, segs: seq<Segment>, a: nat)
    requires AllInFile(file, segs) && forall i :: 0 <= i < |segs| ==> !Contains(segs[i], a)
    ensures Content(file, segs, a) == 0
  {
    if segs != [] {
      assert !Contains(segs[|segs| - 1], a);
      OutsideIsZero(file, segs[..|segs| - 1], a);
    }
  }

  /** With disjoint segments the order of the headers does not matter: every byte of a
      segment is its file byte or zero. */
  lemma {:induction false} DisjointContent(file: seq<Byte>, segs: seq<Segment>, i: nat, a: nat)
    requires AllInFile(file, segs) && Disjoint(segs) && i < |segs| && Contains(segs[i], a)
    ensures Content(file, segs, a) == OwnByte(file, segs[i], a)
  {
    var rest := segs[..|segs| - 1];
    if i == |segs| - 1 {
      if a - segs[i].vaddr >= FileLen(segs[i]) {
        forall j | 0 <= j < |rest| ensures !Contains(rest[j], a) { assert rest[j] == segs[j]; }
        OutsideIsZero(file, rest, a);
      }
    } else {
      assert !Contains(segs[|segs| - 1], a);
      forall j, k, b | 0 <= j < k < |rest| && Contains(rest[j], b) ensures !Contains(rest[k], b) {
        assert rest[j] == segs[j] && rest[k] == segs[k];
      }
      DisjointContent(file, rest, i, a);
    }
  }
}
