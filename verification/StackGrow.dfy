/** Growing a task's stack on a fault below it, page by page downwards. */
module StackGrow {
  import opened Prelude
  import P = PmmSpec
  import PP = PmmProps
  import opened CowSpec
  import opened CowProps
  import opened MmapSpec
  import opened MmapProps
  import opened MmapMemory
  import E = Eager
  import Cow

  /** Page numbers: the stack is [bottom, top), and `guard` the start of what is kept
      free below it. */
  datatype Stack = Stack(top: nat, bottom: nat, guard: int)

  /** Is a fault at page `p` one to grow for? `max` is the most pages a stack may have. */
  predicate Grows(st: Stack, max: nat, p: nat) { st.top > 0 && p < st.bottom && p < st.top && st.top - max <= p }

  /** Zero pages from `bottom` down to `p`, until one finds no memory. */
  function GrowMachine(m: Machine, a: nat, bottom: nat, p: nat, zero: Page): (r: Machine)
    requires Shaped(m)
    ensures Shaped(r)
    decreases bottom
  {
    if bottom <= p then m
    else
      var one := MapShaped(m, Key(a, bottom - 1), zero, true, false);
      if one.1 then GrowMachine(one.0, a, bottom - 1, p, zero) else one.0
  }

  function GrowBottom(m: Machine, a: nat, bottom: nat, p: nat, zero: Page): (r: nat)
    requires Shaped(m)
    ensures r <= bottom && (p <= bottom ==> p <= r)
    decreases bottom
  {
    if bottom <= p then bottom
    else
      var one := MapShaped(m, Key(a, bottom - 1), zero, true, false);
      if one.1 then GrowBottom(one.0, a, bottom - 1, p, zero) else bottom
  }

  function Grow(m: Machine, a: nat, st: Stack, max: nat, p: nat, zero: Page): (r: Machine)
    requires Shaped(m)
    ensures Shaped(r)
  {
    if Grows(st, max, p) then GrowMachine(m, a, st.bottom, p, zero) else m
  }

  /** What was mapped before memory ran out stays; the guard moves only on success. */
  function Grown(m: Machine, a: nat, st: Stack, max: nat, p: nat, zero: Page): Stack
    requires Shaped(m)
  {
    if !Grows(st, max, p) then st
    else
      var b := GrowBottom(m, a, st.bottom, p, zero);
      st.(bottom := b, guard := if b <= p then b - 1 else st.guard)
  }

  /** The loop at `bottom`: what is left leads where the whole would. */
  ghost predicate Growing(m: Machine, a: nat, bottom: nat, p: nat, zero: Page, ok: bool, goal: Machine, goalBottom: nat)
    requires Shaped(m)
  {
    if ok then GrowMachine(m, a, bottom, p, zero) == goal && GrowBottom(m, a, bottom, p, zero) == goalBottom
    else m == goal && bottom == goalBottom
  }

  // ---- one page -----------------------------------------------------------------

  /** What growth needs of the counts to map right: no mapped frame looks free. */
  ghost predicate Safe(m: Machine) {
    && Shaped(m) && PP.Exact(m.pmm)
    && (forall f {:trigger DevOk(m, f)} :: DevOk(m, f))
    && (forall k {:trigger InUse(m, k)} :: InUse(m, k))
  }

  ghost predicate InUse(m: Machine, k: Key)
    requires Shaped(m)
  {
    k in m.leaves ==> m.leaves[k].frame in m.dev || GetRef(m, m.leaves[k].frame) > 0
  }

  lemma InvIsSafe(m: Machine)
    requires Inv(m)
    ensures Safe(m)
  {
    forall k ensures InUse(m, k) { if k in m.leaves && m.leaves[k].frame !in m.dev { MappedIsUsed(m, k); } }
  }

  lemma SafeFrame(m: Machine) returns (m1: Machine, f: nat)
    requires Safe(m) && AllocFrame(m).Some?
    ensures AllocFrame(m).value == (m1, f) && Shaped(m1) && PP.Exact(m1.pmm) && P.Managed(m.pmm, f)
    ensures |m1.pmm.used| == |m.pmm.used| && m1.pmm.rc == m.pmm.rc[f := 1] && m1.pmm.used == m.pmm.used[f := true]
    ensures !m.pmm.used[f] && GetRef(m, f) == 0 && f !in m.dev && forall k :: k in m.leaves ==> m.leaves[k].frame != f
  {
    m1, f := AllocFrame(m).value.0, AllocFrame(m).value.1;
    PP.ClaimExact(m.pmm, 1, -1);
    PP.ClaimComplete(m.pmm, 1);
    assert !m.pmm.used[f];
    assert m1.pmm.rc == m.pmm.rc[f := 1];
    assert m1.pmm.used == m.pmm.used[f := true];
    assert DevOk(m, f);
    forall k | k in m.leaves ensures m.leaves[k].frame != f { assert InUse(m, k); }
  }

  /** One page mapped over whatever was there. */
  lemma MapOver(m: Machine, k: Key, zero: Page) returns (m1: Machine, ok: bool)
    requires Safe(m)
    ensures MapShaped(m, k, zero, true, false) == (m1, ok) && Safe(m1) && m1.dev == m.dev && m1.kept == m.kept
    ensures Free(m) >= 0 && (ok <==> Free(m) > 0) && Free(m1) == Free(m) - (if ok then 1 else 0)
    ensures Abs(m1) == if ok then E.Map(Abs(m), k, zero, true, false) else Abs(m)
    ensures if ok then m1.leaves.Keys == m.leaves.Keys + {k} else m1.leaves == m.leaves
    ensures forall j :: j in m.leaves && j != k ==> m1.leaves[j] == m.leaves[j]
    ensures ok ==> GetRef(m, m1.leaves[k].frame) == 0
    ensures forall f :: GetRef(m, f) > 0 ==> GetRef(m1, f) == GetRef(m, f)
  {
    var one := MapShaped(m, k, zero, true, false);
    m1, ok := one.0, one.1;
    MapTakesOne(m, k, zero, true, false);
    if ok {
      var _, f := SafeFrame(m);
      forall g ensures DevOk(m1, g) { assert DevOk(m, g); }
      forall j ensures InUse(m1, j) { assert InUse(m, j); }
      AbsUpdate(m, m1, k);
    } else {
      FailedSafe(m);
    }
  }

  lemma FailedSafe(m: Machine)
    requires Safe(m) && AllocFrame(m).None?
    ensures Safe(Failed(m)) && Abs(Failed(m)) == Abs(m)
  {
    PP.ClaimExact(m.pmm, 1, -1);
    forall g ensures DevOk(Failed(m), g) { assert DevOk(m, g); }
    forall j ensures InUse(Failed(m), j) { assert InUse(m, j); }
    assert Abs(Failed(m)).pages == Abs(m).pages;
  }

  /** The first page down, and what is left to reach `goal` and `low`. */
  lemma GrowFirst(m: Machine, a: nat, bottom: nat, p: nat, zero: Page, goal: Machine, low: nat)
    returns (m1: Machine, ok: bool)
    requires Safe(m) && p < bottom && Growing(m, a, bottom, p, zero, true, goal, low)
    ensures Safe(m1) && Free(m) >= 0 && (ok <==> Free(m) > 0) && Free(m1) == Free(m) - (if ok then 1 else 0)
    ensures Abs(m1) == if ok then E.Map(Abs(m), Key(a, bottom - 1), zero, true, false) else Abs(m)
    ensures Growing(m1, a, if ok then bottom - 1 else bottom, p, zero, ok, goal, low)
  {
    m1, ok := MapOver(m, Key(a, bottom - 1), zero);
  }

  // ---- the counts ---------------------------------------------------------------

  /** A frame with more references than leaves. */
  ghost predicate Leaked(m: Machine, f: int)
    requires Shaped(m)
  {
    f !in m.dev && f !in m.kept && GetRef(m, f) > |LeavesOn(m.leaves, f)|
  }

  lemma LeakIsInexact(m: Machine, f: int)
    requires Shaped(m) && Leaked(m, f)
    ensures !Inv(m)
  {
    assert !CountOk(m, f);
  }

  lemma MapKeepsLeak(m: Machine, k: Key, zero: Page, f: int) returns (m1: Machine, ok: bool)
    requires Safe(m) && Leaked(m, f)
    ensures MapShaped(m, k, zero, true, false) == (m1, ok) && Safe(m1) && Leaked(m1, f)
  {
    m1, ok := MapOver(m, k, zero);
    LeavesNoMore(m.leaves, m1.leaves, k, f);
  }

  lemma LeavesNoMore(l: map<Key, Leaf>, l1: map<Key, Leaf>, k: Key, f: int)
    requires l1.Keys <= l.Keys + {k} && (k in l1 ==> l1[k].frame != f || l1 == l)
    requires forall j :: j in l && j != k ==> j in l1 && l1[j] == l[j]
    ensures |LeavesOn(l1, f)| <= |LeavesOn(l, f)|
  {
    forall j | j in LeavesOn(l1, f) ensures j in LeavesOn(l, f) { assert j in l1.Keys; }
    SetsNoMore(LeavesOn(l1, f), LeavesOn(l, f));
  }

  lemma SetsNoMore(s: set<Key>, t: set<Key>)
    requires forall j :: j in s ==> j in t
    ensures |s| <= |t|
  {
    assert t == s + (t - s);
  }

  lemma LeakStep(m: Machine, a: nat, bottom: nat, p: nat, zero: Page, goal: Machine, low: nat, f: int)
    returns (m1: Machine, ok: bool)
    requires Safe(m) && Leaked(m, f) && p < bottom && Growing(m, a, bottom, p, zero, true, goal, low)
    ensures Safe(m1) && Leaked(m1, f) && Growing(m1, a, if ok then bottom - 1 else bottom, p, zero, ok, goal, low)
  {
    m1, ok := MapKeepsLeak(m, Key(a, bottom - 1), zero, f);
  }

  lemma {:induction false} GrowKeepsLeak(m: Machine, a: nat, bottom: nat, p: nat, zero: Page, goal: Machine, low: nat,
                                         f: int)
    requires Safe(m) && Leaked(m, f) && Growing(m, a, bottom, p, zero, true, goal, low)
    ensures !Inv(goal)
    decreases bottom
  {
    if bottom <= p {
      LeakIsInexact(m, f);
    } else {
      var m1, ok := LeakStep(m, a, bottom, p, zero, goal, low, f);
      if ok { GrowKeepsLeak(m1, a, bottom - 1, p, zero, goal, low, f); } else { LeakIsInexact(m1, f); }
    }
  }

  lemma MapOverLeaks(m: Machine, k: Key, zero: Page) returns (m1: Machine)
    requires Inv(m) && k in m.leaves && m.leaves[k].frame !in m.dev && AllocFrame(m).Some?
    ensures MapShaped(m, k, zero, true, false) == (m1, true) && Safe(m1) && Leaked(m1, m.leaves[k].frame)
  {
    InvIsSafe(m);
    var ok;
    m1, ok := MapOver(m, k, zero);
    var f := m.leaves[k].frame;
    MapOverState(m, k, zero, true, false);
    MappedIsUsed(m, k);
    assert CountOk(m, f) && k in LeavesOn(m.leaves, f);
    assert LeavesOn(m1.leaves, f) == LeavesOn(m.leaves, f) - {k};
  }

  /** Is `k` mapped to a frame of the allocator? */
  predicate Owned(m: Machine, k: Key) { k in m.leaves && m.leaves[k].frame !in m.dev }

  /** No page of a frame of the allocator is at [lo, hi) of space `a`. */
  ghost predicate NoneOwned(m: Machine, a: nat, lo: nat, hi: nat) {
    forall i {:trigger Key(a, i)} :: lo <= i < hi ==> !Owned(m, Key(a, i))
  }

  lemma OwnedBelow(m: Machine, m1: Machine, a: nat, lo: nat, hi: nat)
    requires lo < hi && m1.dev == m.dev && m1.leaves.Keys == m.leaves.Keys + {Key(a, hi - 1)}
    requires !Owned(m, Key(a, hi - 1))
    requires forall j :: j in m.leaves && j != Key(a, hi - 1) ==> m1.leaves[j] == m.leaves[j]
    ensures NoneOwned(m1, a, lo, hi - 1) <==> NoneOwned(m, a, lo, hi)
  {
    assert forall j :: j in m1.leaves <==> j in m.leaves || j == Key(a, hi - 1);
  }

  /** One page down, mapped over a page of the allocator. */
  lemma GrowOver(m: Machine, a: nat, bottom: nat, p: nat, zero: Page, goal: Machine, low: nat) returns (m1: Machine)
    requires Inv(m) && p < bottom && Free(m) > 0 && Owned(m, Key(a, bottom - 1))
    requires Growing(m, a, bottom, p, zero, true, goal, low)
    ensures Safe(m1) && Leaked(m1, m.leaves[Key(a, bottom - 1)].frame)
    ensures Growing(m1, a, bottom - 1, p, zero, true, goal, low)
  {
    AllocIffFree(m);
    m1 := MapOverLeaks(m, Key(a, bottom - 1), zero);
  }

  lemma GrowLeaks(m: Machine, a: nat, bottom: nat, p: nat, zero: Page, goal: Machine, low: nat)
    requires Inv(m) && p < bottom && Free(m) > 0 && Owned(m, Key(a, bottom - 1))
    requires Growing(m, a, bottom, p, zero, true, goal, low)
    ensures !Inv(goal)
  {
    var m1 := GrowOver(m, a, bottom, p, zero, goal, low);
    GrowKeepsLeak(m1, a, bottom - 1, p, zero, goal, low, m.leaves[Key(a, bottom - 1)].frame);
  }

  lemma GrowMoves(m: Machine, a: nat, bottom: nat, p: nat, zero: Page)
    requires PP.Exact(m.pmm) && p < bottom && Free(m) > 0
    ensures GrowBottom(m, a, bottom, p, zero) < bottom
  {
    AllocIffFree(m);
  }

  lemma GrowStuck(m: Machine, a: nat, bottom: nat, p: nat, zero: Page)
    requires Inv(m) && p < bottom && Free(m) <= 0
    ensures Inv(GrowMachine(m, a, bottom, p, zero)) && GrowBottom(m, a, bottom, p, zero) == bottom
  {
    AllocIffFree(m);
    FailedRefines(m);
  }

  /** One page down, mapped over nothing or device memory. */
  lemma GrowPast(m: Machine, k: Key, zero: Page, low: nat) returns (m1: Machine)
    requires Inv(m) && Free(m) > 0 && !Owned(m, k)
    ensures MapShaped(m, k, zero, true, false) == (m1, true) && Inv(m1)
    ensures low <= k.vpn ==> (NoneOwned(m1, k.space, low, k.vpn) <==> NoneOwned(m, k.space, low, k.vpn + 1))
  {
    InvIsSafe(m);
    var ok;
    m1, ok := MapOver(m, k, zero);
    MapExactIff(m, k, zero, true, false);
    if low <= k.vpn { OwnedBelow(m, m1, k.space, low, k.vpn + 1); }
  }

  lemma GrowClear(m: Machine, a: nat, bottom: nat, p: nat, zero: Page, goal: Machine, low: nat) returns (m1: Machine)
    requires Inv(m) && p < bottom && Free(m) > 0 && !Owned(m, Key(a, bottom - 1))
    requires Growing(m, a, bottom, p, zero, true, goal, low)
    ensures Inv(m1) && Growing(m1, a, bottom - 1, p, zero, true, goal, low)
    ensures NoneOwned(m1, a, low, bottom - 1) <==> NoneOwned(m, a, low, bottom)
  {
    GrowMoves(m, a, bottom, p, zero);
    m1 := GrowPast(m, Key(a, bottom - 1), zero, low);
  }

  lemma {:induction false} GrowKeeps(m: Machine, a: nat, bottom: nat, p: nat, zero: Page, goal: Machine, low: nat)
    requires Inv(m) && p <= bottom && Growing(m, a, bottom, p, zero, true, goal, low) && NoneOwned(m, a, low, bottom)
    ensures Inv(goal)
    decreases bottom
  {
    if p < bottom && Free(m) <= 0 {
      GrowStuck(m, a, bottom, p, zero);
    } else if p < bottom {
      GrowMoves(m, a, bottom, p, zero);
      var m1 := GrowClear(m, a, bottom, p, zero, goal, low);
      GrowKeeps(m1, a, bottom - 1, p, zero, goal, low);
    }
  }

  lemma {:induction false} GrowBreaks(m: Machine, a: nat, bottom: nat, p: nat, zero: Page, goal: Machine, low: nat)
    requires Inv(m) && p <= bottom && Growing(m, a, bottom, p, zero, true, goal, low) && !NoneOwned(m, a, low, bottom)
    ensures !Inv(goal)
    decreases bottom
  {
    if p < bottom && Free(m) <= 0 {
      GrowStuck(m, a, bottom, p, zero);
    } else if p < bottom && Owned(m, Key(a, bottom - 1)) {
      GrowLeaks(m, a, bottom, p, zero, goal, low);
    } else if p < bottom {
      var m1 := GrowClear(m, a, bottom, p, zero, goal, low);
      GrowBreaks(m1, a, bottom - 1, p, zero, goal, low);
    }
  }

  /** Growth maps over what is in its way. The counts stay exact if and only if that was
      nothing, or device memory. */
  lemma GrowExactIff(m: Machine, a: nat, bottom: nat, p: nat, zero: Page)
    requires Inv(m) && p <= bottom
    ensures Inv(GrowMachine(m, a, bottom, p, zero)) <==>
              NoneOwned(m, a, GrowBottom(m, a, bottom, p, zero), bottom)
  {
    var goal, low := GrowMachine(m, a, bottom, p, zero), GrowBottom(m, a, bottom, p, zero);
    if NoneOwned(m, a, low, bottom) {
      GrowKeeps(m, a, bottom, p, zero, goal, low);
    } else {
      GrowBreaks(m, a, bottom, p, zero, goal, low);
    }
  }

  // ---- the whole growth ---------------------------------------------------------

  /** Growth goes as far as there are free pages, and no less. */
  lemma {:induction false} GrowBottomIs(m: Machine, a: nat, bottom: nat, p: nat, zero: Page, goal: Machine, low: nat)
    requires Safe(m) && p <= bottom && Growing(m, a, bottom, p, zero, true, goal, low)
    ensures Free(m) >= 0 && low == bottom - Min(bottom - p, Free(m))
    decreases bottom
  {
    if p < bottom {
      var m1, ok := GrowFirst(m, a, bottom, p, zero, goal, low);
      if ok { GrowBottomIs(m1, a, bottom - 1, p, zero, goal, low); }
    } else {
      AllocIffFree(m);
    }
  }

  /** Key `k` shows a zero page if it is in [lo, hi), and what it showed otherwise. */
  ghost predicate ZeroAt(w1: E.World, w2: E.World, a: nat, lo: nat, hi: nat, zero: Page, k: Key) {
    && w2.devices == w1.devices
    && if Within(k, a, lo, hi) then k in w2.pages && w2.pages[k] == E.Private(zero, true, false)
       else (k in w2.pages <==> k in w1.pages) && (k in w2.pages ==> w2.pages[k] == w1.pages[k])
  }

  lemma ZeroCons(w1: E.World, w2: E.World, w3: E.World, a: nat, lo: nat, hi: nat, zero: Page, k: Key)
    requires lo < hi && w2 == E.Map(w1, Key(a, hi - 1), zero, true, false) && ZeroAt(w2, w3, a, lo, hi - 1, zero, k)
    ensures ZeroAt(w1, w3, a, lo, hi, zero, k)
  {
  }

  lemma {:induction false} GrowShows(m: Machine, a: nat, bottom: nat, p: nat, zero: Page, goal: Machine, low: nat,
                                     k: Key)
    requires Safe(m) && p <= bottom && Growing(m, a, bottom, p, zero, true, goal, low)
    ensures low <= bottom && ZeroAt(Abs(m), Abs(goal), a, low, bottom, zero, k)
    decreases bottom
  {
    if p < bottom {
      var m1, ok := GrowFirst(m, a, bottom, p, zero, goal, low);
      if ok {
        GrowShows(m1, a, bottom - 1, p, zero, goal, low, k);
        ZeroCons(Abs(m), Abs(m1), Abs(goal), a, low, bottom, zero, k);
      }
    }
  }

  /** The lowest page a stack may reach. */
  function Floor(st: Stack, max: nat): nat { if st.top <= max then 0 else st.top - max }

  /** The stack is mapped without a gap, and nothing is mapped below it down to the limit. */
  ghost predicate StackOk(m: Machine, a: nat, st: Stack, max: nat) {
    && Floor(st, max) <= st.bottom <= st.top
    && Mapped(m, a, st.bottom, st.top - st.bottom)
    && Unmapped(m, a, Floor(st, max), st.bottom - Floor(st, max))
  }

  lemma LeavesAreSeen(m: Machine, k: Key)
    ensures k in m.leaves <==> k in Abs(m).pages
  {
  }

  lemma {:induction false} StackKept(m: Machine, m': Machine, a: nat, st: Stack, st': Stack, max: nat, zero: Page)
    requires StackOk(m, a, st, max) && st'.top == st.top && Floor(st, max) <= st'.bottom <= st.bottom
    requires forall k: Key :: ZeroAt(Abs(m), Abs(m'), a, st'.bottom, st.bottom, zero, k)
    ensures StackOk(m', a, st', max)
  {
    forall i: nat | Floor(st, max) <= i < st.top ensures Key(a, i) in m'.leaves <==> i >= st'.bottom {
      var k := Key(a, i);
      assert ZeroAt(Abs(m), Abs(m'), a, st'.bottom, st.bottom, zero, k);
      LeavesAreSeen(m, k);
      LeavesAreSeen(m', k);
    }
  }

  /** A fault is dealt with if and only if it is below the stack and no further from its top
      than the limit. Then the pages from the old bottom down to the fault, or as many as
      memory allows, appear zeroed, writable and not executable, whatever was mapped there;
      nothing else changes; growth reaches the fault if and only if enough pages are free;
      and the counts stay exact if and only if no page of a frame of the allocator was in the
      way. Any other fault changes nothing. */
  lemma GrowExact(m: Machine, a: nat, st: Stack, max: nat, p: nat, zero: Page)
    requires Inv(m)
    ensures var m', st' := Grow(m, a, st, max, p, zero), Grown(m, a, st, max, p, zero);
            if st.top > 0 && p < st.bottom && p < st.top && st.top <= p + max
            then
              && (forall k: Key :: ZeroAt(Abs(m), Abs(m'), a, st'.bottom, st.bottom, zero, k))
              && st'.top == st.top && p <= st'.bottom <= st.bottom
              && (st'.bottom == p <==> st.bottom - p <= Free(m))
              && st'.guard == (if st'.bottom == p then p - 1 else st.guard)
              && (Inv(m') <==> NoneOwned(m, a, st'.bottom, st.bottom))
            else m' == m && st' == st
  {
    if st.top > 0 && p < st.bottom && p < st.top && st.top <= p + max {
      var m', st' := Grow(m, a, st, max, p, zero), Grown(m, a, st, max, p, zero);
      InvIsSafe(m);
      GrowExactIff(m, a, st.bottom, p, zero);
      GrowBottomIs(m, a, st.bottom, p, zero, m', st'.bottom);
      forall k: Key ensures ZeroAt(Abs(m), Abs(m'), a, st'.bottom, st.bottom, zero, k) {
        GrowShows(m, a, st.bottom, p, zero, m', st'.bottom, k);
      }
    }
  }

  /** A whole stack with nothing below it stays so, and the counts exact. */
  lemma GrowKeepsWhole(m: Machine, a: nat, st: Stack, max: nat, p: nat, zero: Page)
    requires Inv(m) && StackOk(m, a, st, max) && Grows(st, max, p)
    ensures Inv(Grow(m, a, st, max, p, zero))
    ensures StackOk(Grow(m, a, st, max, p, zero), a, Grown(m, a, st, max, p, zero), max)
  {
    GrowExact(m, a, st, max, p, zero);
    var m', st' := Grow(m, a, st, max, p, zero), Grown(m, a, st, max, p, zero);
    StackKept(m, m', a, st, st', max, zero);
    assert NoneOwned(m, a, st'.bottom, st.bottom);
  }

  // ---- over many faults ---------------------------------------------------------

  function GrowAll(m: Machine, a: nat, st: Stack, max: nat, faults: seq<nat>, zero: Page): (r: Machine)
    requires Shaped(m)
    ensures Shaped(r)
    decreases |faults|
  {
    if faults == [] then m
    else GrowAll(Grow(m, a, st, max, faults[0], zero), a, Grown(m, a, st, max, faults[0], zero), max, faults[1..], zero)
  }

  function GrownAll(m: Machine, a: nat, st: Stack, max: nat, faults: seq<nat>, zero: Page): Stack
    requires Shaped(m)
    decreases |faults|
  {
    if faults == [] then st
    else GrownAll(Grow(m, a, st, max, faults[0], zero), a, Grown(m, a, st, max, faults[0], zero), max, faults[1..],
                  zero)
  }

  /** Whatever the faults, the stack stays whole, within its limit, and never shrinks. */
  lemma {:induction false} FaultsKeepStack(m: Machine, a: nat, st: Stack, max: nat, faults: seq<nat>, zero: Page)
    requires Inv(m) && StackOk(m, a, st, max)
    ensures var m', st' := GrowAll(m, a, st, max, faults, zero), GrownAll(m, a, st, max, faults, zero);
            Inv(m') && StackOk(m', a, st', max) && st'.top == st.top && st'.bottom <= st.bottom
    decreases |faults|
  {
    if faults != [] {
      if Grows(st, max, faults[0]) {
        GrowKeepsWhole(m, a, st, max, faults[0], zero);
        GrowExact(m, a, st, max, faults[0], zero);
      }
      FaultsKeepStack(Grow(m, a, st, max, faults[0], zero), a, Grown(m, a, st, max, faults[0], zero), max, faults[1..],
                      zero);
    }
  }

  // ---- in place -----------------------------------------------------------------

  class UserStack {
    const vm: Cow.AddressSpaces
    const space: nat
    const top: nat
    const max: nat
    var bottom: nat
    var guard: int

    ghost predicate Valid()
      reads this, vm, vm.alloc, vm.alloc.bm, vm.alloc.rc
    {
      vm.Valid()
    }

    ghost function Abs(): (m: Machine)
      requires Valid()
      reads this, vm, vm.alloc, vm.alloc.bm, vm.alloc.rc
      ensures Shaped(m)
    {
      vm.Abs()
    }

    ghost function Region(): Stack
      reads this
    {
      Stack(top, bottom, guard)
    }

    constructor (vm: Cow.AddressSpaces, space: nat, top: nat, max: nat, bottom: nat, guard: int)
      requires vm.Valid()
      ensures Valid() && this.vm == vm && this.space == space && this.max == max
              && Region() == Stack(top, bottom, guard)
    {
      this.vm, this.space, this.top, this.max, this.bottom, this.guard := vm, space, top, max, bottom, guard;
    }

    method MapOne(k: Key, zero: Page) returns (ok: bool)
      requires Valid()
      modifies vm, vm.alloc, vm.alloc.bm, vm.alloc.rc
      ensures Valid() && Abs() == MapShaped(old(Abs()), k, zero, true, false).0
              && ok == MapShaped(old(Abs()), k, zero, true, false).1
    {
      ok := vm.MapPage(k, zero, true, false);
    }

    method GrowPage(p: nat, zero: Page, ghost goal: Machine, ghost goalBottom: nat) returns (ok: bool)
      requires Valid() && p < bottom && Growing(Abs(), space, bottom, p, zero, true, goal, goalBottom)
      modifies this`bottom, vm, vm.alloc, vm.alloc.bm, vm.alloc.rc
      ensures Valid() && bottom == (if ok then old(bottom) - 1 else old(bottom))
      ensures Growing(Abs(), space, bottom, p, zero, ok, goal, goalBottom)
    {
      ok := MapOne(Key(space, bottom - 1), zero);
      if ok { bottom := bottom - 1; }
    }

    method GrowPages(p: nat, zero: Page, ghost goal: Machine, ghost goalBottom: nat) returns (ok: bool)
      requires Valid() && p < bottom && Growing(Abs(), space, bottom, p, zero, true, goal, goalBottom)
      modifies this`bottom, vm, vm.alloc, vm.alloc.bm, vm.alloc.rc
      ensures Valid() && p <= bottom && (ok <==> bottom == p)
      ensures Growing(Abs(), space, bottom, p, zero, ok, goal, goalBottom)
    {
      ok := true;
      while ok && bottom > p
        invariant Valid() && p <= bottom && (bottom == p ==> ok)
        invariant Growing(Abs(), space, bottom, p, zero, ok, goal, goalBottom)
        decreases bottom, ok
      {
        ok := GrowPage(p, zero, goal, goalBottom);
      }
    }

    /** The fault at byte address `addr`; false hands it on. */
    method Fault(addr: nat, zero: Page) returns (ok: bool)
      requires Valid()
      modifies this, vm, vm.alloc, vm.alloc.bm, vm.alloc.rc
      ensures Valid()
      ensures Abs() == Grow(old(Abs()), space, old(Region()), max, addr / PAGE_SIZE, zero)
      ensures Region() == Grown(old(Abs()), space, old(Region()), max, addr / PAGE_SIZE, zero)
      ensures var p := addr / PAGE_SIZE;
              ok <==> 0 < top && p < old(bottom) && p < top <= p + max && bottom == p
    {
      var p := addr / PAGE_SIZE;
      if top == 0 || p >= bottom || p >= top || p < top - max { return false; }
      ok := GrowPages(p, zero, GrowMachine(Abs(), space, bottom, p, zero), GrowBottom(Abs(), space, bottom, p, zero));
      if ok { guard := bottom - 1; }
    }
  }
}
