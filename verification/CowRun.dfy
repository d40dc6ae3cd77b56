/** Whole runs of the copy-on-write machine against eager copying. */
module CowRun {
  import opened Prelude
  import P = PmmSpec
  import PP = PmmProps
  import opened CowSpec
  import opened CowProps
  import E = Eager

  /** fork walks the parent's leaves in table order. */
  function Fork(m: Machine, parent: nat, child: nat, vpns: seq<nat>): (r: Machine)
    requires Shaped(m)
    ensures Shaped(r)
    decreases |vpns|
  {
    if vpns == [] || Key(parent, vpns[0]) !in m.leaves then m
    else Fork(ShareLeaf(m, Key(parent, vpns[0]), Key(child, vpns[0])), parent, child, vpns[1..])
  }

  /** No shared count is saturated when its leaf is reached. */
  predicate ForkFits(m: Machine, parent: nat, child: nat, vpns: seq<nat>)
    requires Shaped(m)
    decreases |vpns|
  {
    vpns == [] || Key(parent, vpns[0]) !in m.leaves ||
    (GetRef(m, m.leaves[Key(parent, vpns[0])].frame) < P.RC_MAX &&
     ForkFits(ShareLeaf(m, Key(parent, vpns[0]), Key(child, vpns[0])), parent, child, vpns[1..]))
  }

  /** exit and munmap: a walk that drops leaves. */
  function DropAll(m: Machine, keys: seq<Key>): (r: Machine)
    requires Shaped(m)
    ensures Shaped(r)
    decreases |keys|
  {
    if keys == [] then m else DropAll(DropPage(m, keys[0]), keys[1..])
  }

  // ---- the specification of fork and exit ----------------------------------------

  /** Every page of the parent, copied to the same address of the child. */
  ghost function ForkCopy(w: E.World, parent: nat, child: nat): E.World {
    var copies := set k | k in w.pages && k.space == parent :: Key(child, k.vpn);
    w.(pages := map k | k in w.pages.Keys + copies ::
                  if k in copies then w.pages[Key(parent, k.vpn)] else w.pages[k])
  }

  ghost predicate Distinct(vpns: seq<nat>) {
    forall i, j :: 0 <= i < j < |vpns| ==> vpns[i] != vpns[j]
  }

  function CopyWalk(w: E.World, parent: nat, child: nat, vpns: seq<nat>): E.World
    decreases |vpns|
  {
    if vpns == [] || Key(parent, vpns[0]) !in w.pages then w
    else CopyWalk(E.CopyPage(w, Key(parent, vpns[0]), Key(child, vpns[0])), parent, child, vpns[1..])
  }

  /** Page by page, a walk over all of the parent's pages is the copy. */
  lemma {:induction false} CopyWalkAll(w: E.World, parent: nat, child: nat, vpns: seq<nat>)
    requires parent != child && forall v :: v in vpns ==> Key(parent, v) in w.pages
    ensures CopyWalk(w, parent, child, vpns).devices == w.devices
    ensures forall k :: k in CopyWalk(w, parent, child, vpns).pages
                        <==> k in w.pages || (k.space == child && k.vpn in vpns)
    ensures forall k :: k in CopyWalk(w, parent, child, vpns).pages ==>
              (CopyWalk(w, parent, child, vpns).pages[k] ==
               if k.space == child && k.vpn in vpns then w.pages[Key(parent, k.vpn)] else w.pages[k])
    decreases |vpns|
  {
    if vpns != [] {
      var v, rest := vpns[0], vpns[1..];
      assert forall u :: u in vpns <==> u == v || u in rest;
      CopyWalkAll(E.CopyPage(w, Key(parent, v), Key(child, v)), parent, child, rest);
    }
  }

  lemma CopyWalkIsFork(w: E.World, parent: nat, child: nat, vpns: seq<nat>)
    requires parent != child && forall v: nat :: v in vpns <==> Key(parent, v) in w.pages
    ensures CopyWalk(w, parent, child, vpns) == ForkCopy(w, parent, child)
  {
    CopyWalkAll(w, parent, child, vpns);
    var copies := set k | k in w.pages && k.space == parent :: Key(child, k.vpn);
    forall k ensures k in copies <==> k.space == child && k.vpn in vpns {
      if k.space == child && k.vpn in vpns { assert Key(parent, k.vpn) in w.pages; }
    }
    assert CopyWalk(w, parent, child, vpns).pages == ForkCopy(w, parent, child).pages;
  }

  lemma {:induction false} ForkWalk(m: Machine, parent: nat, child: nat, vpns: seq<nat>)
    requires Inv(m) && parent != child && Distinct(vpns) && ForkFits(m, parent, child, vpns)
    requires forall v :: v in vpns ==> Key(parent, v) in m.leaves && Key(child, v) !in m.leaves
    ensures Inv(Fork(m, parent, child, vpns))
    ensures Abs(Fork(m, parent, child, vpns)) == CopyWalk(Abs(m), parent, child, vpns)
    decreases |vpns|
  {
    if vpns != [] {
      var v, rest := vpns[0], vpns[1..];
      assert v in vpns && forall u :: u in rest ==> u in vpns && u != v;
      ShareLeafRefines(m, Key(parent, v), Key(child, v));
      ForkWalk(ShareLeaf(m, Key(parent, v), Key(child, v)), parent, child, rest);
    }
  }

  lemma ForkRefines(m: Machine, parent: nat, child: nat, vpns: seq<nat>)
    requires Inv(m) && parent != child && Distinct(vpns) && ForkFits(m, parent, child, vpns)
    requires forall v: nat :: v in vpns <==> Key(parent, v) in m.leaves
    requires forall v: nat :: Key(child, v) !in m.leaves
    ensures Inv(Fork(m, parent, child, vpns))
    ensures Abs(Fork(m, parent, child, vpns)) == ForkCopy(Abs(m), parent, child)
  {
    ForkWalk(m, parent, child, vpns);
    CopyWalkIsFork(Abs(m), parent, child, vpns);
  }

  function DropKeys(w: E.World, keys: seq<Key>): E.World
    decreases |keys|
  {
    if keys == [] then w else DropKeys(E.Drop(w, keys[0]), keys[1..])
  }

  lemma {:induction false} DropAllRefines(m: Machine, keys: seq<Key>)
    requires Inv(m)
    ensures Inv(DropAll(m, keys)) && Abs(DropAll(m, keys)) == DropKeys(Abs(m), keys)
    decreases |keys|
  {
    if keys != [] {
      DropRefines(m, keys[0]);
      DropAllRefines(DropPage(m, keys[0]), keys[1..]);
    }
  }

  // ---- a fork that fails --------------------------------------------------------

  function ChildKeys(child: nat, vpns: seq<nat>): seq<Key> {
    seq(|vpns|, i requires 0 <= i < |vpns| => Key(child, vpns[i]))
  }

  /** Tables ran out after the leaves `done`: the child's space is destroyed again. The
      parent's leaves keep their marks. */
  function FailFork(m: Machine, parent: nat, child: nat, done: seq<nat>): (r: Machine)
    requires Shaped(m)
    ensures Shaped(r)
  {
    DropAll(Fork(m, parent, child, done), ChildKeys(child, done))
  }

  lemma {:induction false} DropKeysAre(w: E.World, keys: seq<Key>, k: Key)
    ensures DropKeys(w, keys).devices == w.devices
    ensures k in DropKeys(w, keys).pages <==> k in w.pages && k !in keys
    ensures k in DropKeys(w, keys).pages ==> DropKeys(w, keys).pages[k] == w.pages[k]
    decreases |keys|
  {
    if keys != [] {
      DropKeysAre(E.Drop(w, keys[0]), keys[1..], k);
      assert k in keys <==> k == keys[0] || k in keys[1..];
    }
  }

  lemma CopiedThenDropped(w: E.World, parent: nat, child: nat, done: seq<nat>)
    requires parent != child && forall v :: v in done ==> Key(parent, v) in w.pages
    requires forall k :: k in w.pages ==> k.space != child
    ensures DropKeys(CopyWalk(w, parent, child, done), ChildKeys(child, done)) == w
  {
    var c, keys := CopyWalk(w, parent, child, done), ChildKeys(child, done);
    CopyWalkAll(w, parent, child, done);
    forall k ensures (k in DropKeys(c, keys).pages <==> k in w.pages)
      ensures k in w.pages ==> DropKeys(c, keys).pages[k] == w.pages[k]
    {
      DropKeysAre(c, keys, k);
      ChildKeysAre(child, done, k);
    }
    DropKeysAre(c, keys, Key(0, 0));
    assert DropKeys(c, keys).pages == w.pages;
  }

  /** A fork that fails part way leaves every space seeing what it saw, and every count
      exact. */
  lemma FailedForkIsUnseen(m: Machine, parent: nat, child: nat, done: seq<nat>)
    requires Inv(m) && parent != child && Distinct(done) && ForkFits(m, parent, child, done)
    requires forall v :: v in done ==> Key(parent, v) in m.leaves
    requires forall v: nat :: Key(child, v) !in m.leaves
    ensures Inv(FailFork(m, parent, child, done)) && Abs(FailFork(m, parent, child, done)) == Abs(m)
  {
    ForkWalk(m, parent, child, done);
    DropAllRefines(Fork(m, parent, child, done), ChildKeys(child, done));
    forall k | k in Abs(m).pages ensures k.space != child { assert Key(k.space, k.vpn) in m.leaves; }
    CopiedThenDropped(Abs(m), parent, child, done);
  }

  lemma ChildKeysAre(child: nat, vpns: seq<nat>, k: Key)
    ensures k in ChildKeys(child, vpns) <==> k.space == child && k.vpn in vpns
  {
    if k.space == child && k.vpn in vpns {
      var i :| 0 <= i < |vpns| && vpns[i] == k.vpn;
      assert ChildKeys(child, vpns)[i] == k;
    }
  }

  // ---- runs ------------------------------------------------------------------------

  datatype Op =
    | OpFork(parent: nat, child: nat, vpns: seq<nat>)
    | OpForkFails(parent: nat, child: nat, done: seq<nat>)
    | OpStore(k: Key, off: nat, b: bv8)
    | OpFault(k: Key)
    | OpProtect(k: Key, w: bool, x: bool)
    | OpMap(k: Key, page: Page, w: bool, x: bool)
    | OpMapDevice(k: Key, frame: int, w: bool, x: bool)
    | OpDrop(keys: seq<Key>)

  /** One kernel entry and whether it took effect. */
  function Step(m: Machine, op: Op): (Machine, bool)
    requires Shaped(m)
  {
    match op
    case OpFork(p, c, vpns) => (Fork(m, p, c, vpns), true)
    case OpForkFails(p, c, done) => (FailFork(m, p, c, done), false)
    case OpStore(k, off, b) => UserStore(m, k, off, b)
    case OpFault(k) => (WriteFault(m, k).0, true)
    case OpProtect(k, w, x) => (ProtectPage(m, k, w, x), true)
    case OpMap(k, page, w, x) => MapPage(m, k, page, w, x)
    case OpMapDevice(k, f, w, x) => (MapDevice(m, k, f, w, x), true)
    case OpDrop(keys) => (DropAll(m, keys), true)
  }

  /** What the callers guarantee: a new child space, a fresh address for a new
      mapping, and device mappings only of device frames. */
  ghost predicate Legal(m: Machine, op: Op)
    requires Shaped(m)
  {
    match op
    case OpFork(p, c, vpns) =>
      && p != c && Distinct(vpns) && ForkFits(m, p, c, vpns)
      && (forall v: nat :: v in vpns <==> Key(p, v) in m.leaves)
      && (forall v: nat :: Key(c, v) !in m.leaves)
    case OpForkFails(p, c, done) =>
      && p != c && Distinct(done) && ForkFits(m, p, c, done)
      && (forall v :: v in done ==> Key(p, v) in m.leaves)
      && (forall v: nat :: Key(c, v) !in m.leaves)
    case OpMap(k, _, _, _) => k !in m.leaves
    case OpMapDevice(k, f, _, _) => k !in m.leaves && f in m.dev
    case _ => true
  }

  /** The same entry on eagerly copied pages. */
  ghost function EagerStep(w: E.World, op: Op): E.World {
    match op
    case OpFork(p, c, _) => ForkCopy(w, p, c)
    case OpForkFails(_, _, _) => w
    case OpStore(k, off, b) => E.StorePage(w, k, off, b).0
    case OpFault(_) => w
    case OpProtect(k, wr, x) => E.Protect(w, k, wr, x)
    case OpMap(k, page, wr, x) => E.Map(w, k, page, wr, x)
    case OpMapDevice(k, f, wr, x) => w.(pages := w.pages[k := E.Device(f, wr, x)])
    case OpDrop(keys) => DropKeys(w, keys)
  }

  lemma StepRefines(m: Machine, op: Op)
    requires Inv(m) && Legal(m, op)
    ensures Inv(Step(m, op).0)
    ensures Abs(Step(m, op).0) == if Step(m, op).1 then EagerStep(Abs(m), op) else Abs(m)
  {
    match op
    case OpFork(p, c, vpns) => ForkRefines(m, p, c, vpns);
    case OpForkFails(p, c, done) => FailedForkIsUnseen(m, p, c, done);
    case OpStore(k, off, b) => UserStoreRefines(m, k, off, b);
    case OpFault(k) => WriteFaultRefines(m, k);
    case OpProtect(k, w, x) => ProtectRefines(m, k, w, x);
    case OpMap(k, page, w, x) => MapRefines(m, k, page, w, x);
    case OpMapDevice(k, f, w, x) => MapDeviceRefines(m, k, f, w, x);
    case OpDrop(keys) => DropAllRefines(m, keys);
  }

  ghost predicate LegalRun(m: Machine, ops: seq<Op>)
    requires Shaped(m)
    decreases |ops|
  {
    ops == [] || (Legal(m, ops[0]) && Shaped(Step(m, ops[0]).0) && LegalRun(Step(m, ops[0]).0, ops[1..]))
  }

  ghost function Run(m: Machine, ops: seq<Op>): Machine
    requires Shaped(m) && LegalRun(m, ops)
    decreases |ops|
  {
    if ops == [] then m else Run(Step(m, ops[0]).0, ops[1..])
  }

  /** The entries that took effect, in order. */
  ghost function Effects(m: Machine, ops: seq<Op>): seq<Op>
    requires Shaped(m) && LegalRun(m, ops)
    decreases |ops|
  {
    if ops == [] then []
    else (if Step(m, ops[0]).1 then [ops[0]] else []) + Effects(Step(m, ops[0]).0, ops[1..])
  }

  ghost function EagerRun(w: E.World, ops: seq<Op>): E.World
    decreases |ops|
  {
    if ops == [] then w else EagerRun(EagerStep(w, ops[0]), ops[1..])
  }

  /** In every run, each address space reads the bytes and has the protection it
      would have if fork had copied every page; entries that fail change nothing;
      and reference counts stay exact. */
  lemma {:induction false} RunRefines(m: Machine, ops: seq<Op>)
    requires Inv(m) && LegalRun(m, ops)
    ensures Inv(Run(m, ops))
    ensures Abs(Run(m, ops)) == EagerRun(Abs(m), Effects(m, ops))
    decreases |ops|
  {
    if ops != [] {
      StepRefines(m, ops[0]);
      var m1, ok := Step(m, ops[0]).0, Step(m, ops[0]).1;
      RunRefines(m1, ops[1..]);
      var rest := Effects(m1, ops[1..]);
      if ok { assert ([ops[0]] + rest)[1..] == rest; } else { assert [] + rest == rest; }
    }
  }

  /** A machine after boot: nothing mapped, no page referenced but those the kernel keeps,
      device frames in use. */
  ghost predicate Booted(m: Machine) {
    && PP.Exact(m.pmm) && m.leaves == map[] && m.kept !! m.dev
    && (forall p :: 0 <= p < |m.pmm.rc| ==> m.pmm.rc[p] == if p in m.kept then 1 else 0)
    && (forall p :: p in m.kept ==> P.Managed(m.pmm, p))
    && (forall f :: f in m.dev && P.Managed(m.pmm, f) ==> m.pmm.used[f])
  }

  lemma BootedInv(m: Machine)
    requires Booted(m)
    ensures Inv(m)
  {
    forall f ensures DevOk(m, f) && CountOk(m, f) { assert LeavesOn(m.leaves, f) == {}; }
  }

  /** From boot on, over every run. */
  lemma BootRunRefines(m: Machine, ops: seq<Op>)
    requires Booted(m) && LegalRun(m, ops)
    ensures Inv(Run(m, ops)) && Abs(Run(m, ops)) == EagerRun(Abs(m), Effects(m, ops))
  {
    BootedInv(m);
    RunRefines(m, ops);
  }
}
