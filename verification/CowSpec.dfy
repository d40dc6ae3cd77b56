/** Copy-on-write memory as a value: the allocator, the contents of the frames and
    the one-page leaves of every address space. Frames the allocator does not own
    (`dev`) are device memory. One function per operation of kernel/vm_cow.c and
    per page step of kernel/sys_mmap.c. */
module CowSpec {
  import opened Prelude
  import P = PmmSpec

  type Page = seq<bv8>

  datatype Key = Key(space: nat, vpn: nat)
  datatype Leaf = Leaf(frame: int, w: bool, x: bool, cow: bool)
  /** `kept` are the frames the kernel holds one reference to for itself. */
  datatype Machine = Machine(pmm: P.State, mem: map<int, Page>, leaves: map<Key, Leaf>, dev: set<int>, kept: set<int>)

  datatype Outcome = Handled | NotCow | NoMem

  function Contents(mem: map<int, Page>, f: int): Page {
    if f in mem then mem[f] else []
  }

  function Store(p: Page, off: nat, b: bv8): Page {
    if off < |p| then p[off := b] else p
  }

  // ---- leaf bits ------------------------------------------------------------

  function MkCow(e: Leaf): Leaf { e.(w := false, cow := true) }
  function MkWrite(e: Leaf, f: int): Leaf { Leaf(f, true, e.x, false) }

  // ---- operations -----------------------------------------------------------

  predicate Shaped(m: Machine) { P.Shaped(m.pmm) }

  function GetRef(m: Machine, f: int): nat
    requires Shaped(m)
  {
    P.GetRef(m.pmm, f)
  }

  /** fork, one leaf: a writable leaf of an owned frame becomes copy-on-write on
      both sides; a device leaf is handed over as it is. */
  function ShareLeaf(m: Machine, parent: Key, child: Key): Machine
    requires Shaped(m) && parent in m.leaves
  {
    var e := m.leaves[parent];
    if GetRef(m, e.frame) == 0 then m.(leaves := m.leaves[child := e])
    else
      var e' := if e.w then MkCow(e) else e;
      m.(leaves := m.leaves[parent := e'][child := e'], pmm := P.Incref(m.pmm, e.frame))
  }

  /** One new frame: its machine and its number. */
  function AllocFrame(m: Machine): Option<(Machine, nat)> {
    match P.ClaimStart(m.pmm, 1)
    case None => None
    case Some(f) => Some((m.(pmm := P.Alloc(m.pmm, 1, -1)), f))
  }

  function Failed(m: Machine): Machine { m.(pmm := P.Claim(m.pmm, 1)) }

  function WriteFault(m: Machine, k: Key): (Machine, Outcome)
    requires Shaped(m)
  {
    if k !in m.leaves then (m, NotCow)
    else
      var e := m.leaves[k];
      if !e.cow then (m, if e.w then Handled else NotCow)
      else if GetRef(m, e.frame) > 1 then
        match AllocFrame(m)
        case None => (Failed(m), NoMem)
        case Some((m1, f)) =>
          var m2 := m1.(mem := m1.mem[f := Contents(m1.mem, e.frame)], leaves := m1.leaves[k := MkWrite(e, f)]);
          (m2.(pmm := P.FreeOne(m2.pmm, e.frame)), Handled)
      else (m.(leaves := m.leaves[k := MkWrite(e, e.frame)]), Handled)
  }

  function ProtectPage(m: Machine, k: Key, w: bool, x: bool): Machine
    requires Shaped(m)
  {
    if k !in m.leaves then m
    else
      var e := m.leaves[k];
      var cow := w && (e.cow || GetRef(m, e.frame) > 1);
      m.(leaves := m.leaves[k := Leaf(e.frame, w && !cow, x, cow)])
  }

  /** mremap reads a copy-on-write page as writable. */
  function PageProt(m: Machine, k: Key): Option<(bool, bool)> {
    if k !in m.leaves then None else Some((m.leaves[k].w || m.leaves[k].cow, m.leaves[k].x))
  }

  /** A user store: through a writable leaf, or after the fault handler has made
      the leaf writable. The flag says whether the store took effect. */
  function UserStore(m: Machine, k: Key, off: nat, b: bv8): (Machine, bool)
    requires Shaped(m)
  {
    if k in m.leaves && m.leaves[k].w then
      (WriteThrough(m, k, off, b), true)
    else
      var (m1, out) := WriteFault(m, k);
      if out == Handled && k in m1.leaves then (WriteThrough(m1, k, off, b), true) else (m1, false)
  }

  function WriteThrough(m: Machine, k: Key, off: nat, b: bv8): Machine
    requires k in m.leaves
  {
    var f := m.leaves[k].frame;
    m.(mem := m.mem[f := Store(Contents(m.mem, f), off, b)])
  }

  /** A fresh page with given contents at an unmapped address. */
  function MapPage(m: Machine, k: Key, page: Page, w: bool, x: bool): (Machine, bool) {
    match AllocFrame(m)
    case None => (Failed(m), false)
    case Some((m1, f)) =>
      (m1.(mem := m1.mem[f := page], leaves := m1.leaves[k := Leaf(f, w, x, false)]), true)
  }

  function MapDevice(m: Machine, k: Key, f: int, w: bool, x: bool): Machine {
    m.(leaves := m.leaves[k := Leaf(f, w, x, false)])
  }

  function DropPage(m: Machine, k: Key): Machine
    requires Shaped(m)
  {
    if k !in m.leaves then m
    else m.(leaves := m.leaves - {k}, pmm := P.FreeOne(m.pmm, m.leaves[k].frame))
  }
}
