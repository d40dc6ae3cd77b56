/** mmap, munmap, mprotect and mremap over whole pages of one address space. Pages are
    named by number; `Window` is the range mmap may use. */
module MmapSpec {
  import opened Prelude
  import opened CowSpec

  datatype Window = Window(lo: nat, hi: nat)

  predicate InWindow(win: Window, b: nat, n: nat) { n > 0 && win.lo <= b < win.hi && b + n <= win.hi }

  ghost predicate Unmapped(m: Machine, a: nat, b: nat, n: nat) {
    forall i {:trigger Key(a, i)} :: b <= i < b + n ==> Key(a, i) !in m.leaves
  }

  ghost predicate Mapped(m: Machine, a: nat, b: nat, n: nat) {
    forall i {:trigger Key(a, i)} :: b <= i < b + n ==> Key(a, i) in m.leaves
  }

  /** The lowest run of `n` unmapped pages in [from, hi). */
  ghost function FirstGap(m: Machine, a: nat, n: nat, from: nat, hi: nat): (r: Option<nat>)
    ensures r.Some? ==> from <= r.value && r.value + n <= hi && Unmapped(m, a, r.value, n)
    ensures forall b :: from <= b && b + n <= hi && Unmapped(m, a, b, n) ==> r.Some? && r.value <= b
    decreases hi - from, a
  {
    if from + n > hi then None
    else if Unmapped(m, a, from, n) then Some(from)
    else FirstGap(m, a, n, from + 1, hi)
  }

  function Hint(win: Window, hint: nat): nat { if hint < win.lo || hint >= win.hi then win.lo else hint }

  /** From the hint up; failing that, from the bottom up to the hint. */
  ghost function FindGap(m: Machine, a: nat, n: nat, hint: nat, win: Window): Option<nat> {
    if n == 0 || win.hi < win.lo + n then None
    else
      var h := Hint(win, hint);
      var above := FirstGap(m, a, n, h, win.hi);
      if above.Some? then above
      else if h > win.lo then FirstGap(m, a, n, win.lo, h)
      else None
  }

  function MapShaped(m: Machine, k: Key, page: Page, w: bool, x: bool): (r: (Machine, bool))
    requires Shaped(m)
    ensures Shaped(r.0)
  {
    MapPage(m, k, page, w, x)
  }

  /** Map `pages` from `b` up until one fails. */
  function MapAll(m: Machine, a: nat, b: nat, pages: seq<Page>, w: bool, x: bool): (r: Machine)
    requires Shaped(m)
    ensures Shaped(r)
    decreases |pages|
  {
    if pages == [] then m
    else
      var one := MapShaped(m, Key(a, b), pages[0], w, x);
      if one.1 then MapAll(one.0, a, b + 1, pages[1..], w, x) else one.0
  }

  /** Where that stopped: the first page not mapped. */
  function MapTop(m: Machine, a: nat, b: nat, pages: seq<Page>, w: bool, x: bool): (top: nat)
    requires Shaped(m)
    ensures b <= top <= b + |pages|
    decreases |pages|
  {
    if pages == [] then b
    else
      var one := MapShaped(m, Key(a, b), pages[0], w, x);
      if one.1 then MapTop(one.0, a, b + 1, pages[1..], w, x) else b
  }

  function DropTo(m: Machine, a: nat, lo: nat, hi: nat): (r: Machine)
    requires Shaped(m)
    ensures Shaped(r)
    decreases hi - lo, a
  {
    if lo >= hi then m else DropTo(DropShaped(m, Key(a, lo)), a, lo + 1, hi)
  }

  function DropShaped(m: Machine, k: Key): (r: Machine)
    requires Shaped(m)
    ensures Shaped(r)
  {
    DropPage(m, k)
  }

  predicate MapFits(m: Machine, a: nat, b: nat, pages: seq<Page>, w: bool, x: bool)
    requires Shaped(m)
  {
    MapTop(m, a, b, pages, w, x) == b + |pages|
  }

  /** Map them all, or leave nothing mapped. */
  function MapOrUndo(m: Machine, a: nat, b: nat, pages: seq<Page>, w: bool, x: bool): (r: Machine)
    requires Shaped(m)
    ensures Shaped(r)
  {
    var m1 := MapAll(m, a, b, pages, w, x);
    if MapFits(m, a, b, pages, w, x) then m1 else DropTo(m1, a, b, MapTop(m, a, b, pages, w, x))
  }

  /** mmap without MAP_FIXED: where the pages go, if anywhere. */
  ghost function MmapBase(m: Machine, a: nat, pages: seq<Page>, w: bool, x: bool, hint: nat, win: Window): Option<nat>
    requires Shaped(m)
  {
    match FindGap(m, a, |pages|, hint, win)
    case None => None
    case Some(b) => if MapFits(m, a, b, pages, w, x) then Some(b) else None
  }

  /** The machine afterwards. */
  ghost function Mmap(m: Machine, a: nat, pages: seq<Page>, w: bool, x: bool, hint: nat, win: Window): (r: Machine)
    requires Shaped(m)
    ensures Shaped(r)
  {
    match FindGap(m, a, |pages|, hint, win)
    case None => m
    case Some(b) => MapOrUndo(m, a, b, pages, w, x)
  }

  // ---- mmap with MAP_FIXED ------------------------------------------------------

  /** What was in the range goes first; then the pages are mapped, or none is. */
  function MmapAt(m: Machine, a: nat, b: nat, pages: seq<Page>, w: bool, x: bool, win: Window): (r: Machine)
    requires Shaped(m)
    ensures Shaped(r)
  {
    if InWindow(win, b, |pages|) then MapOrUndo(DropTo(m, a, b, b + |pages|), a, b, pages, w, x) else m
  }

  predicate MmapAtFits(m: Machine, a: nat, b: nat, pages: seq<Page>, w: bool, x: bool, win: Window)
    requires Shaped(m)
  {
    InWindow(win, b, |pages|) && MapFits(DropTo(m, a, b, b + |pages|), a, b, pages, w, x)
  }

  // ---- mprotect -----------------------------------------------------------------

  function ProtectTo(m: Machine, a: nat, lo: nat, hi: nat, w: bool, x: bool): (r: Machine)
    requires Shaped(m)
    ensures Shaped(r)
    decreases hi - lo, a
  {
    if lo >= hi then m else ProtectTo(ProtectPage(m, Key(a, lo), w, x), a, lo + 1, hi, w, x)
  }

  /** A range with a hole is refused before anything is changed. */
  ghost function Mprotect(m: Machine, a: nat, b: nat, n: nat, w: bool, x: bool): (r: Machine)
    requires Shaped(m)
    ensures Shaped(r)
  {
    if Mapped(m, a, b, n) then ProtectTo(m, a, b, b + n, w, x) else m
  }

  // ---- mremap -------------------------------------------------------------------

  /** The contents of page `from` copied over those of page `dest`, frame to frame. */
  function CopyPage(m: Machine, from: Key, dest: Key): Machine {
    if from in m.leaves && dest in m.leaves
    then m.(mem := m.mem[m.leaves[dest].frame := Contents(m.mem, m.leaves[from].frame)]) else m
  }

  function CopyRange(m: Machine, a: nat, from: nat, dest: nat, n: nat): (r: Machine)
    requires Shaped(m)
    ensures Shaped(r)
    decreases n, a
  {
    if n == 0 then m else CopyRange(CopyPage(m, Key(a, from), Key(a, dest)), a, from + 1, dest + 1, n - 1)
  }

  datatype Remap = Stays | Moved(b: nat) | Refused

  function Zeros(zero: Page, n: nat): (z: seq<Page>)
    ensures |z| == n && forall i :: 0 <= i < n ==> z[i] == zero
  {
    seq(n, _ => zero)
  }

  /** Can the range grow where it is? */
  ghost predicate InPlace(m: Machine, a: nat, b: nat, have: nat, want: nat, win: Window)
    requires have < want
  {
    InWindow(win, b + have, want - have) && Unmapped(m, a, b + have, want - have)
  }

  /** Resize a mapped range of `have` pages to `want` pages with protection `w`, `x`,
      moving it when allowed and needed: the answer. */
  ghost function ResizeAnswer(m: Machine, a: nat, b: nat, have: nat, want: nat, w: bool, x: bool, mayMove: bool,
                              zero: Page, hint: nat, win: Window)
    : Remap
    requires Shaped(m)
  {
    if want <= have then Stays
    else if InPlace(m, a, b, have, want, win) then
      if MapFits(m, a, b + have, Zeros(zero, want - have), w, x) then Stays else Refused
    else if !mayMove then Refused
    else
      match MmapBase(m, a, Zeros(zero, want), w, x, hint, win)
      case None => Refused
      case Some(nb) => Moved(nb)
  }

  /** The machine afterwards. The old range is unmapped only inside the window. */
  ghost function Resize(m: Machine, a: nat, b: nat, have: nat, want: nat, w: bool, x: bool, mayMove: bool, zero: Page,
                        hint: nat, win: Window)
    : (r: Machine)
    requires Shaped(m)
    ensures Shaped(r)
  {
    if want <= have then DropTo(m, a, b + want, b + have)
    else if InPlace(m, a, b, have, want, win) then MapOrUndo(m, a, b + have, Zeros(zero, want - have), w, x)
    else if !mayMove then m
    else
      var m1 := Mmap(m, a, Zeros(zero, want), w, x, hint, win);
      match MmapBase(m, a, Zeros(zero, want), w, x, hint, win)
      case None => m1
      case Some(nb) => Relocated(m1, a, b, have, nb, win)
  }

  ghost predicate Remappable(m: Machine, a: nat, b: nat, have: nat, want: nat) {
    b > 0 && have > 0 && want > 0 && Mapped(m, a, b, have)
  }

  /** The protection of the first page; a page without one reads as writable data. */
  function FirstProt(m: Machine, a: nat, b: nat): (bool, bool) {
    match PageProt(m, Key(a, b))
    case Some(p) => p
    case None => (true, false)
  }

  /** mremap without MREMAP_FIXED. */
  ghost function Answer(m: Machine, a: nat, b: nat, have: nat, want: nat, mayMove: bool, zero: Page, hint: nat,
                        win: Window): Remap
    requires Shaped(m)
  {
    var (w, x) := FirstProt(m, a, b);
    if Remappable(m, a, b, have, want)
    then ResizeAnswer(m, a, b, have, want, w, x, mayMove, zero, hint, win) else Refused
  }

  ghost function Mremap(m: Machine, a: nat, b: nat, have: nat, want: nat, mayMove: bool, zero: Page, hint: nat,
                        win: Window): (r: Machine)
    requires Shaped(m)
    ensures Shaped(r)
  {
    var (w, x) := FirstProt(m, a, b);
    if Remappable(m, a, b, have, want) then Resize(m, a, b, have, want, w, x, mayMove, zero, hint, win) else m
  }

  /** Contents copied over, old range given back. */
  ghost function Relocated(m: Machine, a: nat, b: nat, have: nat, nb: nat, win: Window): (r: Machine)
    requires Shaped(m)
    ensures Shaped(r)
  {
    var m2 := CopyRange(m, a, b, nb, have);
    if InWindow(win, b, have) then DropTo(m2, a, b, b + have) else m2
  }
}
