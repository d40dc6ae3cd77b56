/** The concurrent machine gets things done: a write fault ends with a page that can be
    written, a fork with a whole copy or with nothing, an unmapping with the frame let go. */
module CowSmpProgress {
  import opened CowSmp
  import opened CowSmpProps
  import opened CowSmpRun

  // ---- runs, one step after another ---------------------------------------------

  ghost predicate Leads(s: State, steps: seq<Step>, r: State) {
    AllEnabled(s, steps) && Run(s, steps) == r && Inv(s) && Inv(r)
  }

  lemma {:induction false} OneMore(s: State, a: seq<Step>, step: Step)
    requires AllEnabled(s, a) && Enabled(Run(s, a), step)
    ensures AllEnabled(s, a + [step]) && Run(s, a + [step]) == Apply(Run(s, a), step)
    decreases |a|
  {
    var b := a + [step];
    if a == [] {
      assert b[1..] == [] && AllEnabled(Apply(s, step), b[1..]);
    } else {
      assert b[0] == a[0] && b[1..] == a[1..] + [step];
      OneMore(Apply(s, a[0]), a[1..], step);
    }
  }

  lemma Then(s: State, a: seq<Step>, m: State, step: Step) returns (b: seq<Step>, r: State)
    requires Leads(s, a, m) && Enabled(m, step)
    ensures r == Apply(m, step) && Leads(s, b, r) && Views(r) == Effect(m, step, Views(m))
  {
    OneMore(s, a, step);
    StepKeeps(m, step);
    StepRefines(m, step);
    b, r := a + [step], Apply(m, step);
  }

  lemma {:induction false} LeadsAfter(s: State, a: seq<Step>, m: State, b: seq<Step>, r: State)
    requires Leads(s, a, m) && Leads(m, b, r)
    ensures Leads(s, a + b, r)
    decreases |b|
  {
    if b == [] {
      assert a + b == a;
    } else {
      OneMore(s, a, b[0]);
      StepKeeps(m, b[0]);
      LeadsAfter(s, a + [b[0]], Apply(m, b[0]), b[1..], r);
      assert a + [b[0]] + b[1..] == a + b;
    }
  }

  /** Only the thread of `a` has moved. */
  ghost predicate Alone(s: State, r: State, a: Space) {
    forall b {:trigger At(r, b)} :: b != a ==> At(r, b) == At(s, b)
  }

  /** The steps that change no view and move no thread but that of `a`. */
  predicate Handler(step: Step, a: Space) {
    match step
    case ReadCount(b) => b == a
    case TakeFrame(b, _) => b == a
    case CopyPage(b) => b == a
    case Install(b) => b == a
    case InstallLast(b) => b == a
    case Flush(b) => b == a
    case LetGo(b) => b == a
    case Fault(k) => k.space == a
    case _ => false
  }

  lemma HandlerAlone(s: State, step: Step, a: Space)
    requires Enabled(s, step) && Handler(step, a)
    ensures Alone(s, Apply(s, step), a) && Effect(s, step, Views(s)) == Views(s)
  {
  }

  /** `r` is reached from `s` by the handler of `a`. */
  ghost predicate Handles(s: State, steps: seq<Step>, r: State, a: Space) {
    Leads(s, steps, r) && Alone(s, r, a) && Views(r) == Views(s)
  }

  lemma HandleOne(s: State, b: seq<Step>, m: State, step: Step, a: Space) returns (d: seq<Step>, r: State)
    requires Handles(s, b, m, a) && Enabled(m, step) && Handler(step, a)
    ensures r == Apply(m, step) && Handles(s, d, r, a)
  {
    d, r := Then(s, b, m, step);
    HandlerAlone(m, step, a);
    forall x | x != a ensures At(r, x) == At(s, x) { assert At(m, x) == At(s, x); }
  }

  lemma HandleOn(s: State, b: seq<Step>, m: State, d: seq<Step>, r: State, a: Space) returns (e: seq<Step>)
    requires Handles(s, b, m, a) && Handles(m, d, r, a)
    ensures Handles(s, e, r, a)
  {
    LeadsAfter(s, b, m, d, r);
    e := b + d;
    forall x | x != a ensures At(r, x) == At(s, x) { assert At(m, x) == At(s, x); }
  }

  // ---- write faults -------------------------------------------------------------

  lemma LastMapperWrites(s: State, a: Space) returns (steps: seq<Step>, r: State)
    requires Inv(s) && At(s, a).LastOne?
    ensures Handles(s, steps, r, a) && At(r, a) == User
    ensures var k := Key(a, At(s, a).v); k in r.leaves && r.leaves[k].w
  {
    var b, m := HandleOne(s, [], s, InstallLast(a), a);
    steps, r := HandleOne(s, b, m, Flush(a), a);
  }

  lemma CopierCopies(s: State, a: Space, n: Frame) returns (steps: seq<Step>, r: State)
    requires Inv(s) && At(s, a).MustCopy? && Rc(s, n) == 0
    ensures Handles(s, steps, r, a) && At(r, a) == HasCopy(At(s, a).v, At(s, a).e, n)
  {
    var b, m := HandleOne(s, [], s, TakeFrame(a, n), a);
    steps, r := HandleOne(s, b, m, CopyPage(a), a);
  }

  lemma CopierInstalls(s: State, a: Space) returns (steps: seq<Step>, r: State)
    requires Inv(s) && At(s, a).HasCopy?
    ensures Handles(s, steps, r, a) && At(r, a) == Flushed(At(s, a).e.frame)
    ensures var k := Key(a, At(s, a).v); k in r.leaves && r.leaves[k] == Leaf(At(s, a).new_, true, false)
  {
    var b, m := HandleOne(s, [], s, Install(a), a);
    steps, r := HandleOne(s, b, m, Flush(a), a);
  }

  lemma CopierWrites(s: State, a: Space, n: Frame) returns (steps: seq<Step>, r: State)
    requires Inv(s) && At(s, a).MustCopy? && Rc(s, n) == 0
    ensures Handles(s, steps, r, a) && At(r, a) == User
    ensures var k := Key(a, At(s, a).v); k in r.leaves && r.leaves[k].w && r.leaves[k].frame == n
  {
    var b1, m1 := CopierCopies(s, a, n);
    var b2, m2 := CopierInstalls(m1, a);
    b2 := HandleOn(s, b1, m1, b2, m2, a);
    steps, r := HandleOne(s, b2, m2, LetGo(a), a);
  }

  lemma FaultReads(s: State, k: Key) returns (steps: seq<Step>, r: State)
    requires Inv(s) && At(s, k.space) == User && k in s.leaves && s.leaves[k].cow
    ensures Handles(s, steps, r, k.space) && r.rc == s.rc
    ensures At(r, k.space) == if Rc(s, s.leaves[k].frame) > 1 then MustCopy(k.vpn, s.leaves[k])
                              else LastOne(k.vpn, s.leaves[k])
  {
    var b, m := HandleOne(s, [], s, Fault(k), k.space);
    steps, r := HandleOne(s, b, m, ReadCount(k.space), k.space);
  }

  /** A write fault on a page that is logically writable ends with the page writable, if a
      frame is free or none is needed. Nobody's view changes on the way. */
  lemma FaultMakesWritable(s: State, k: Key, n: Frame) returns (steps: seq<Step>, r: State)
    requires Inv(s) && At(s, k.space) == User && k in Views(s) && Views(s)[k].writable
    requires s.leaves[k].cow && Rc(s, s.leaves[k].frame) > 1 ==> Rc(s, n) == 0
    ensures Handles(s, steps, r, k.space) && At(r, k.space) == User
    ensures k in r.leaves && r.leaves[k].w
  {
    var a := k.space;
    if !s.leaves[k].cow {
      var b, m := HandleOne(s, [], s, Fault(k), a);
      steps, r := HandleOne(s, b, m, Flush(a), a);
    } else {
      var b, m := FaultReads(s, k);
      var d;
      if Rc(s, s.leaves[k].frame) > 1 { d, r := CopierWrites(m, a, n); } else { d, r := LastMapperWrites(m, a); }
      steps := HandleOn(s, b, m, d, r, a);
      assert k == Key(a, k.vpn);
    }
  }

  /** And then the store goes through, on any CPU, and changes that page's view alone. */
  lemma StoreGoesThrough(s: State, c: Cpu, k: Key, p: Page, n: Frame) returns (steps: seq<Step>, r: State)
    requires Inv(s) && At(s, k.space) == User && k in Views(s) && Views(s)[k].writable
    requires s.leaves[k].cow && Rc(s, s.leaves[k].frame) > 1 ==> Rc(s, n) == 0
    ensures Leads(s, steps, r) && At(r, k.space) == User && Alone(s, r, k.space)
    ensures Views(r) == Views(s)[k := Views(s)[k].(bytes := p)]
  {
    var b1, m1 := FaultMakesWritable(s, k, n);
    var b2, m2 := Then(s, b1, m1, Fill(c, k));
    steps, r := Then(s, b2, m2, Store(c, k, p));
    forall x | x != k.space ensures At(r, x) == At(s, x) { assert At(m1, x) == At(s, x); }
  }

  // ---- munmap -------------------------------------------------------------------

  /** munmap of one page returns with the page gone and one reference less on its frame. */
  lemma UnmapReturns(s: State, k: Key) returns (steps: seq<Step>, r: State)
    requires Inv(s) && Enabled(s, Unmap(k))
    ensures Leads(s, steps, r) && At(r, k.space) == User && Alone(s, r, k.space) && Views(r) == Views(s) - {k}
    ensures Rc(s, s.leaves[k].frame) > 0 && Rc(r, s.leaves[k].frame) == Rc(s, s.leaves[k].frame) - 1
  {
    HeldFrame(s, s.leaves[k].frame, ByLeaf(k));
    var b, m := Then(s, [], s, Unmap(k));
    var d;
    d, r := UnmapEnds(m, k.space);
    LeadsAfter(s, b, m, d, r);
    steps := b + d;
    forall x | x != k.space ensures At(r, x) == At(s, x) { assert At(m, x) == At(s, x); }
  }

  lemma UnmapEnds(s: State, a: Space) returns (steps: seq<Step>, r: State)
    requires Inv(s) && At(s, a).Unmapped?
    ensures Handles(s, steps, r, a) && At(r, a) == User
    ensures var f := At(s, a).old_; Rc(r, f) == if Rc(s, f) > 0 then Rc(s, f) - 1 else 0
  {
    var b, m := HandleOne(s, [], s, Flush(a), a);
    steps, r := HandleOne(s, b, m, LetGo(a), a);
  }

  // ---- fork ---------------------------------------------------------------------

  ghost function ToShare(s: State, a: Space, done: set<Vpn>): set<Vpn> {
    set k | k in s.leaves && k.space == a && k.vpn !in done :: k.vpn
  }

  /** The parent's pages in `vs` are copied to the child, and nothing else has changed. */
  ghost predicate Copied(w: map<Key, View>, w': map<Key, View>, a: Space, child: Space, vs: set<Vpn>) {
    forall k {:trigger CopiedAt(w, w', a, child, vs, k)} :: CopiedAt(w, w', a, child, vs, k)
  }

  ghost predicate CopiedAt(w: map<Key, View>, w': map<Key, View>, a: Space, child: Space, vs: set<Vpn>, k: Key) {
    if k.space == child && k.vpn in vs
    then Key(a, k.vpn) in w && k in w' && w'[k] == w[Key(a, k.vpn)]
    else (k in w' <==> k in w) && (k in w ==> w'[k] == w[k])
  }

  lemma CopiedMore(w: map<Key, View>, w1: map<Key, View>, w2: map<Key, View>, a: Space, child: Space, v: Vpn,
                   vs: set<Vpn>)
    requires a != child && Key(a, v) in w && w1 == w[Key(child, v) := w[Key(a, v)]]
    requires Copied(w1, w2, a, child, vs) && v !in vs
    ensures Copied(w, w2, a, child, vs + {v})
  {
    forall k ensures CopiedAt(w, w2, a, child, vs + {v}, k) { assert CopiedAt(w1, w2, a, child, vs, k); }
  }

  lemma SharesOne(s: State, a: Space, v: Vpn) returns (steps: seq<Step>, r: State)
    requires Inv(s) && Enabled(s, ForkMark(a, v))
    ensures Leads(s, steps, r) && At(r, a) == Forking(At(s, a).child, At(s, a).done + {v}) && Alone(s, r, a)
    ensures Key(a, v) in Views(s) && Views(r) == Views(s)[Key(At(s, a).child, v) := Views(s)[Key(a, v)]]
    ensures At(s, a).child != a && r.leaves.Keys == s.leaves.Keys + {Key(At(s, a).child, v)}
  {
    ForkHasChild(s, a);
    var b, m := MarksOne(s, a, v);
    var d;
    d, r := SharesMarked(m, a);
    LeadsAfter(s, b, m, d, r);
    steps := b + d;
    forall x | x != a ensures At(r, x) == At(s, x) { assert At(m, x) == At(s, x); }
  }

  lemma MarksOne(s: State, a: Space, v: Vpn) returns (steps: seq<Step>, r: State)
    requires Inv(s) && Enabled(s, ForkMark(a, v))
    ensures Leads(s, steps, r) && At(r, a) == Marked(At(s, a).child, At(s, a).done, v) && Alone(s, r, a)
    ensures Views(r) == Views(s) && r.leaves.Keys == s.leaves.Keys && Key(a, v) in s.leaves
  {
    steps, r := Then(s, [], s, ForkMark(a, v));
  }

  lemma SharesMarked(s: State, a: Space) returns (steps: seq<Step>, r: State)
    requires Inv(s) && At(s, a).Marked? && Key(a, At(s, a).v) in s.leaves
    ensures var p := At(s, a);
            && Leads(s, steps, r) && At(r, a) == Forking(p.child, p.done + {p.v}) && Alone(s, r, a)
            && Views(r) == Views(s)[Key(p.child, p.v) := Views(s)[Key(a, p.v)]]
            && r.leaves.Keys == s.leaves.Keys + {Key(p.child, p.v)}
  {
    steps, r := Then(s, [], s, ForkShare(a));
  }

  lemma ForkHasChild(s: State, a: Space)
    requires Inv(s) && At(s, a).Forking?
    ensures At(s, a).child != a
  {
    assert PcOk(s, a);
  }

  lemma ShareLess(s: State, m: State, a: Space, child: Space, done: set<Vpn>, v: Vpn)
    requires m.leaves.Keys == s.leaves.Keys + {Key(child, v)} && child != a
    ensures ToShare(m, a, done + {v}) == ToShare(s, a, done) - {v}
  {
    forall u ensures u in ToShare(m, a, done + {v}) <==> u in ToShare(s, a, done) && u != v {
      if u in ToShare(s, a, done) && u != v { assert Key(a, u) in m.leaves.Keys; }
    }
  }

  lemma AllShared(s: State, a: Space, done: set<Vpn>, v: Vpn)
    requires ToShare(s, a, done) == {} && Key(a, v) in s.leaves
    ensures v in done
  {
    assert v !in ToShare(s, a, done) && Key(a, v).vpn == v;
  }

  /** What is left to share after `todo` has been, and what the views are then. */
  ghost predicate Shared(s: State, r: State, a: Space, todo: set<Vpn>)
    requires At(s, a).Forking?
  {
    && Alone(s, r, a) && At(r, a) == Forking(At(s, a).child, At(s, a).done + todo)
    && Copied(Views(s), Views(r), a, At(s, a).child, todo)
    && ToShare(r, a, At(r, a).done) == {}
  }

  lemma SharedMore(s: State, m: State, r: State, a: Space, v: Vpn, todo: set<Vpn>)
    requires At(s, a).Forking? && At(s, a).child != a && v in todo && Key(a, v) in Views(s)
    requires At(m, a) == Forking(At(s, a).child, At(s, a).done + {v}) && Alone(s, m, a)
    requires Views(m) == Views(s)[Key(At(s, a).child, v) := Views(s)[Key(a, v)]] && Shared(m, r, a, todo - {v})
    ensures Shared(s, r, a, todo)
  {
    CopiedMore(Views(s), Views(m), Views(r), a, At(s, a).child, v, todo - {v});
    assert todo - {v} + {v} == todo;
    assert At(s, a).done + {v} + (todo - {v}) == At(s, a).done + todo;
    forall x | x != a ensures At(r, x) == At(s, x) { assert At(m, x) == At(s, x); }
  }

  lemma {:induction false} SharesAll(s: State, a: Space, todo: set<Vpn>) returns (steps: seq<Step>, r: State)
    requires Inv(s) && At(s, a).Forking? && todo == ToShare(s, a, At(s, a).done)
    ensures Leads(s, steps, r) && Shared(s, r, a, todo)
    decreases |todo|
  {
    if todo == {} {
      steps, r := [], s;
      assert At(s, a).done + todo == At(s, a).done;
    } else {
      var v :| v in todo;
      var b, m := SharesOne(s, a, v);
      ShareLess(s, m, a, At(s, a).child, At(s, a).done, v);
      var d;
      d, r := SharesAll(m, a, todo - {v});
      LeadsAfter(s, b, m, d, r);
      steps := b + d;
      SharedMore(s, m, r, a, v, todo);
    }
  }

  /** A fork runs to its end: parent and child run, and the child sees what the parent saw. */
  lemma ForkCompletes(s: State, a: Space, child: Space) returns (steps: seq<Step>, r: State)
    requires Inv(s) && Enabled(s, ForkBegin(a, child))
    ensures Leads(s, steps, r) && At(r, a) == User && At(r, child) == User
    ensures forall b :: b != a && b != child ==> At(r, b) == At(s, b)
    ensures Copied(Views(s), Views(r), a, child, ToShare(s, a, {}))
  {
    var b, m := BeginsFork(s, a, child);
    var d, m2 := SharesAll(m, a, ToShare(s, a, {}));
    LeadsAfter(s, b, m, d, m2);
    var e;
    e, r := EndsFork(m2, a);
    LeadsAfter(s, b + d, m2, e, r);
    steps := b + d + e;
    forall x | x != a && x != child ensures At(r, x) == At(s, x) { assert At(m2, x) == At(m, x); }
  }

  lemma BeginsFork(s: State, a: Space, child: Space) returns (steps: seq<Step>, r: State)
    requires Inv(s) && Enabled(s, ForkBegin(a, child))
    ensures Leads(s, steps, r) && At(r, a) == Forking(child, {}) && Views(r) == Views(s)
    ensures ToShare(r, a, {}) == ToShare(s, a, {}) && forall x :: x != a && x != child ==> At(r, x) == At(s, x)
  {
    steps, r := Then(s, [], s, ForkBegin(a, child));
  }

  lemma EndsFork(s: State, a: Space) returns (steps: seq<Step>, r: State)
    requires Inv(s) && At(s, a).Forking? && ToShare(s, a, At(s, a).done) == {}
    ensures Leads(s, steps, r) && At(r, a) == User && At(r, At(s, a).child) == User && Views(r) == Views(s)
    ensures forall x :: x != a && x != At(s, a).child ==> At(r, x) == At(s, x)
  {
    forall v: Vpn | Key(a, v) in s.leaves ensures v in At(s, a).done { AllShared(s, a, At(s, a).done, v); }
    steps, r := Then(s, [], s, ForkEnd(a));
  }

  lemma DropsOne(s: State, a: Space, v: Vpn) returns (steps: seq<Step>, r: State)
    requires Inv(s) && Enabled(s, ForkDrop(a, v))
    ensures Leads(s, steps, r) && At(r, a) == Undoing(At(s, a).child, At(s, a).left - {v}) && Alone(s, r, a)
    ensures Views(r) == Views(s) - {Key(At(s, a).child, v)}
  {
    steps, r := Then(s, [], s, ForkDrop(a, v));
  }

  lemma {:induction false} DropsAll(s: State, a: Space, left: set<Vpn>) returns (steps: seq<Step>, r: State)
    requires Inv(s) && At(s, a).Undoing? && At(s, a).left == left
    ensures Leads(s, steps, r) && Alone(s, r, a) && At(r, a) == Undoing(At(s, a).child, {})
    ensures forall k :: k in Views(r) <==> k in Views(s) && !(k.space == At(s, a).child && k.vpn in left)
    ensures forall k :: k in Views(r) ==> Views(r)[k] == Views(s)[k]
    decreases |left|
  {
    if left == {} {
      steps, r := [], s;
    } else {
      var v :| v in left;
      var b, m := DropsOne(s, a, v);
      var d;
      d, r := DropsAll(m, a, left - {v});
      LeadsAfter(s, b, m, d, r);
      steps := b + d;
      forall k: Key | k.space == At(s, a).child && k.vpn == v ensures k == Key(At(s, a).child, v) {}
    }
  }

  /** A fork that fails at any point runs back to the start: the parent runs, the child is
      gone, and every other space sees what it saw. */
  lemma FailedForkUnwinds(s: State, a: Space) returns (steps: seq<Step>, r: State)
    requires Inv(s) && Enabled(s, ForkFail(a))
    ensures Leads(s, steps, r) && At(r, a) == User && At(s, a).child !in r.pc
    ensures forall k :: k in Views(r) <==> k in Views(s) && k.space != At(s, a).child
    ensures forall k :: k in Views(r) ==> Views(r)[k] == Views(s)[k]
  {
    var child, done := At(s, a).child, At(s, a).done;
    var b, m := Then(s, [], s, ForkFail(a));
    var d, m2 := DropsAll(m, a, done);
    LeadsAfter(s, b, m, d, m2);
    ForkUndoneLeavesNothing(m2, a);
    steps, r := Then(s, b + d, m2, ForkUndone(a));
    forall k ensures k in Views(r) <==> k in Views(s) && k.space != child {
      if k in Views(s) && k.space == child { assert k !in Views(r); }
    }
  }
}
