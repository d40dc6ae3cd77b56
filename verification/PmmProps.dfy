/** What the allocator promises: the search misses no run, the roll-back
    next-fit is first-fit, and the counts stay exact over every history. */
module PmmProps {
  import opened Prelude
  import opened PmmSpec

  // ---- the search ---------------------------------------------------------

  /** A claim succeeds exactly when a free run of that length exists anywhere,
      including one that straddles the next-fit origin. */
  lemma ClaimComplete(s: State, n: nat)
    requires n > 0
    ensures ClaimStart(s, n).Some? <==> exists p: nat :: FreeRun(s.used, p, n)
    ensures ClaimStart(s, n).Some? ==> FreeRun(s.used, ClaimStart(s, n).value, n)
  {
    if p: nat :| FreeRun(s.used, p, n) {
      var o := Origin(s);
      assert p + n <= |s.used|;
      if n < BIG_PAGES && p < o && p + n > Min(o + n - 1, |s.used|) {
        assert false;
      }
    }
  }

  ghost predicate HasRunBelow(s: State, n: nat) {
    exists p: nat :: p < Origin(s) && FreeRun(s.used, p, n)
  }

  ghost predicate HasRunFrom(s: State, n: nat) {
    exists p: nat :: p >= Origin(s) && FreeRun(s.used, p, n)
  }

  /** A small claim is first-fit unless a run below the origin is passed over for
      one above it; a big claim always is. */
  lemma ClaimIsLowestIff(s: State, n: nat)
    requires n > 0
    ensures ClaimStart(s, n) == LowestRun(s.used, 0, |s.used|, n)
            <==> n >= BIG_PAGES || !HasRunBelow(s, n) || !HasRunFrom(s, n)
  {
    var o := Origin(s);
    var low := LowestRun(s.used, 0, |s.used|, n);
    if |s.used| > 0 && n < BIG_PAGES {
      var hi := LowestRun(s.used, o, |s.used|, n);
      if hi.Some? {
        assert HasRunFrom(s, n);
        if low.value < o { assert HasRunBelow(s, n); }
        if p: nat :| p < o && FreeRun(s.used, p, n) { assert low.value <= p; }
      } else {
        ClaimComplete(s, n);
        if low.Some? { assert low.value < o; }
      }
    }
  }

  // ---- exact counts -------------------------------------------------------

  function CountUsed(u: seq<bool>): nat {
    if |u| == 0 then 0 else CountUsed(u[..|u| - 1]) + (if u[|u| - 1] then 1 else 0)
  }

  lemma {:induction false} CountUpdate(u: seq<bool>, i: nat, b: bool)
    requires i < |u|
    ensures CountUsed(u[i := b]) == CountUsed(u) + (if b then 1 else 0) - (if u[i] then 1 else 0)
  {
    var k := |u| - 1;
    if i == k {
      assert u[i := b][..k] == u[..k];
    } else {
      assert u[i := b][..k] == u[..k][i := b];
      CountUpdate(u[..k], i, b);
    }
  }

  lemma {:induction false} CountFill(u: seq<bool>, start: nat, n: nat)
    requires FreeRun(u, start, n)
    ensures CountUsed(Fill(u, start, n)) == CountUsed(u) + n
  {
    if n == 0 {
      assert Fill(u, start, 0) == u;
    } else {
      CountFill(u, start, n - 1);
      assert Fill(u, start, n) == Fill(u, start, n - 1)[start + n - 1 := true];
      CountUpdate(Fill(u, start, n - 1), start + n - 1, true);
    }
  }

  /** `count` is the number of set bits and a free page has no references. */
  ghost predicate Exact(s: State) {
    && Shaped(s)
    && s.count == CountUsed(s.used)
    && forall p :: 0 <= p < |s.used| && !s.used[p] ==> s.rc[p] == 0
  }

  /** At first no page is free and none referenced. */
  lemma SetupExact(pages: nat)
    ensures Exact(Setup(pages)) && |Setup(pages).used| == pages == Setup(pages).count
    ensures forall p :: 0 <= p < pages ==> Setup(pages).used[p] && Setup(pages).rc[p] == 0
  {
    AllUsed(pages);
  }

  lemma {:induction false} AllUsed(pages: nat)
    ensures CountUsed(seq(pages, i => true)) == pages
  {
    if pages > 0 {
      AllUsed(pages - 1);
      assert seq(pages, i => true)[..pages - 1] == seq(pages - 1, i => true);
    }
  }

  lemma ClaimExact(s: State, n: nat, zero: int)
    requires Exact(s)
    ensures Exact(Claim(s, n)) && Exact(Alloc(s, n, zero))
  {
    if n > 0 && ClaimStart(s, n).Some? {
      ClaimComplete(s, n);
      CountFill(s.used, ClaimStart(s, n).value, n);
    }
  }

  /** No managed page among the `n` from `p` is referenced. */
  ghost predicate Unreferenced(s: State, p: int, n: nat)
    requires |s.rc| == |s.used|
  {
    forall q :: p <= q < p + n && 0 <= q < |s.used| ==> s.rc[q] == 0
  }

  lemma {:induction false} ClearRangeExact(s: State, start: nat, n: nat)
    requires Exact(s) && Unreferenced(s, start, n)
    ensures Exact(ClearRange(s, start, n))
    ensures forall i :: 0 <= i < |s.used| ==>
              ClearRange(s, start, n).used[i] == (s.used[i] && !(start <= i < start + n))
    decreases n
  {
    if n > 0 && start < |s.used| {
      CountUpdate(s.used, start, false);
      ClearRangeExact(ClearPage(s, start), start + 1, n - 1);
    }
  }

  lemma ReleaseExact(s: State, p: int, n: nat)
    requires Exact(s) && (Managed(s, p) ==> Unreferenced(s, p, n))
    ensures Exact(Release(s, p, n))
  {
    if Managed(s, p) { ClearRangeExact(s.(next := if p < s.next then p else s.next), p, n); }
  }

  /** A dropped reference is gone, and the page is free again exactly when it was
      the last one. */
  lemma FreeOneReturnsLast(s: State, p: int)
    requires Exact(s) && Managed(s, p) && s.rc[p] > 0
    ensures Exact(FreeOne(s, p))
    ensures FreeOne(s, p).rc == s.rc[p := s.rc[p] - 1]
    ensures FreeOne(s, p).used == s.used[p := s.rc[p] > 1]
  {
    var s1 := s.(rc := s.rc[p := s.rc[p] - 1]);
    if s1.rc[p] == 0 {
      var s2 := s1.(next := if p < s1.next then p else s1.next);
      ClearRangeExact(s2, p, 1);
      assert ClearRange(s2, p, 1).used == s.used[p := false];
    }
  }

  lemma {:induction false} FreeExact(s: State, p: int, n: nat)
    requires Exact(s)
    ensures Exact(Free(s, p, n))
    decreases n
  {
    if n > 0 {
      if Managed(s, p) && s.rc[p] > 0 { FreeOneReturnsLast(s, p); }
      FreeExact(FreeOne(s, p), p + 1, n - 1);
    }
  }

  lemma {:induction false} MarkUsedExact(s: State, p: int, n: nat)
    requires Exact(s)
    ensures Exact(MarkUsed(s, p, n))
    ensures forall i :: 0 <= i < |s.used| ==> MarkUsed(s, p, n).used[i] == (s.used[i] || p <= i < p + n)
    decreases n
  {
    if n > 0 {
      if Managed(s, p) { CountUpdate(s.used, p, true); }
      MarkUsedExact(if Managed(s, p) then SetPage(s, p) else s, p + 1, n - 1);
    }
  }

  lemma {:induction false} MarkFreeExact(s: State, p: int, n: nat)
    requires Exact(s) && Unreferenced(s, p, n)
    ensures Exact(MarkFree(s, p, n))
    ensures forall i :: 0 <= i < |s.used| ==> MarkFree(s, p, n).used[i] == (s.used[i] && !(p <= i < p + n))
    decreases n
  {
    if n > 0 {
      if Managed(s, p) { CountUpdate(s.used, p, false); }
      MarkFreeExact(if Managed(s, p) then ClearPage(s, p) else s, p + 1, n - 1);
    }
  }

  lemma ReserveExact(s: State, p: int)
    requires Exact(s)
    ensures Exact(ReservePage(s, p))
  {
    if Managed(s, p) { CountUpdate(s.used, p, true); }
  }

  // ---- histories ----------------------------------------------------------

  datatype Op =
    | OpAlloc(n: nat)
    | OpFree(p: int, n: nat)
    | OpIncref(p: int)
    | OpClaim(n: nat)
    | OpRelease(p: int, n: nat)
    | OpReserve(p: int)
    | OpMarkUsed(p: int, n: nat)
    | OpMarkFree(p: int, n: nat)

  function Step(s: State, op: Op, zero: int): (r: State)
    requires |s.rc| == |s.used|
    ensures |r.rc| == |r.used| == |s.used|
  {
    match op
    case OpAlloc(n) => Alloc(s, n, zero)
    case OpFree(p, n) => Free(s, p, n)
    case OpIncref(p) => Incref(s, p)
    case OpClaim(n) => Claim(s, n)
    case OpRelease(p, n) => Release(s, p, n)
    case OpReserve(p) => ReservePage(s, p)
    case OpMarkUsed(p, n) => MarkUsed(s, p, n)
    case OpMarkFree(p, n) => MarkFree(s, p, n)
  }

  /** Callers return through the raw interface, or paint free, only pages that
      carry no references, and add references only to pages in use. */
  ghost predicate Allowed(s: State, op: Op)
    requires |s.rc| == |s.used|
  {
    match op
    case OpIncref(p) => Managed(s, p) ==> s.used[p]
    case OpRelease(p, n) => Managed(s, p) ==> Unreferenced(s, p, n)
    case OpMarkFree(p, n) => Unreferenced(s, p, n)
    case _ => true
  }

  function Run(s: State, ops: seq<Op>, zero: int): (r: State)
    requires |s.rc| == |s.used|
    ensures |r.rc| == |r.used| == |s.used|
    decreases |ops|
  {
    if ops == [] then s else Run(Step(s, ops[0], zero), ops[1..], zero)
  }

  ghost predicate AllAllowed(s: State, ops: seq<Op>, zero: int)
    requires |s.rc| == |s.used|
    decreases |ops|
  {
    ops == [] || (Allowed(s, ops[0]) && AllAllowed(Step(s, ops[0], zero), ops[1..], zero))
  }

  lemma StepExact(s: State, op: Op, zero: int)
    requires Exact(s) && Allowed(s, op)
    ensures Exact(Step(s, op, zero))
  {
    match op
    case OpAlloc(n) => ClaimExact(s, n, zero);
    case OpFree(p, n) => FreeExact(s, p, n);
    case OpIncref(p) =>
    case OpClaim(n) => ClaimExact(s, n, zero);
    case OpRelease(p, n) => ReleaseExact(s, p, n);
    case OpReserve(p) => ReserveExact(s, p);
    case OpMarkUsed(p, n) => MarkUsedExact(s, p, n);
    case OpMarkFree(p, n) => MarkFreeExact(s, p, n);
  }

  /** Adding a reference keeps the counts exact unless the page is free: the count
      of a free page would go up while its bit stays clear. */
  lemma IncrefExactIff(s: State, p: int)
    requires Exact(s)
    ensures Exact(Incref(s, p)) <==> Allowed(s, OpIncref(p))
  {
    if Managed(s, p) && !s.used[p] { assert Incref(s, p).rc[p] == 1; }
  }

  /** Counts are exact after every history of allocator calls. */
  lemma {:induction false} RunExact(s: State, ops: seq<Op>, zero: int)
    requires Exact(s) && AllAllowed(s, ops, zero)
    ensures Exact(Run(s, ops, zero))
    decreases |ops|
  {
    if ops != [] {
      StepExact(s, ops[0], zero);
      RunExact(Step(s, ops[0], zero), ops[1..], zero);
    }
  }

  // ---- first fit over histories --------------------------------------------

  /** Everything below the next-fit origin is in use. */
  ghost predicate Dense(s: State) {
    forall p :: 0 <= p < s.next && p < |s.used| ==> s.used[p]
  }

  predicate FirstFitSize(n: nat) { n == 1 || n >= BIG_PAGES }

  /** Calls that keep the front dense: claims of one page or of a big run, and
      free painting only while the origin is still at the start. */
  ghost predicate KeepsFront(s: State, op: Op) {
    match op
    case OpAlloc(n) => n == 0 || FirstFitSize(n)
    case OpClaim(n) => n == 0 || FirstFitSize(n)
    case OpMarkFree(_, _) => s.next == 0
    case _ => true
  }

  ghost predicate AllKeepFront(s: State, ops: seq<Op>, zero: int)
    requires |s.rc| == |s.used|
    decreases |ops|
  {
    ops == [] || (KeepsFront(s, ops[0]) && AllKeepFront(Step(s, ops[0], zero), ops[1..], zero))
  }

  lemma ClaimDense(s: State, n: nat, zero: int)
    requires Dense(s) && (n == 0 || FirstFitSize(n))
    ensures Dense(Claim(s, n)) && Dense(Alloc(s, n, zero))
  {
    if n == 1 && |s.used| > 0 {
      var o := Origin(s);
      assert forall q :: o <= q < |s.used| && !s.used[q] ==> FreeRun(s.used, q, 1);
    }
  }

  lemma {:induction false} ClearRangeDense(s: State, start: nat, n: nat)
    requires Dense(s) && s.next <= start
    ensures Dense(ClearRange(s, start, n))
    decreases n
  {
    if n > 0 && start < |s.used| { ClearRangeDense(ClearPage(s, start), start + 1, n - 1); }
  }

  lemma ReleaseDense(s: State, p: int, n: nat)
    requires Dense(s)
    ensures Dense(Release(s, p, n))
  {
    if Managed(s, p) { ClearRangeDense(s.(next := if p < s.next then p else s.next), p, n); }
  }

  lemma {:induction false} FreeDense(s: State, p: int, n: nat)
    requires Dense(s) && |s.rc| == |s.used|
    ensures Dense(Free(s, p, n))
    decreases n
  {
    if n > 0 {
      if Managed(s, p) && s.rc[p] == 1 { ReleaseDense(s.(rc := s.rc[p := 0]), p, 1); }
      FreeDense(FreeOne(s, p), p + 1, n - 1);
    }
  }

  lemma {:induction false} MarkUsedDense(s: State, p: int, n: nat)
    requires Dense(s)
    ensures Dense(MarkUsed(s, p, n))
    decreases n
  {
    if n > 0 { MarkUsedDense(if Managed(s, p) then SetPage(s, p) else s, p + 1, n - 1); }
  }

  lemma StepDense(s: State, op: Op, zero: int)
    requires Dense(s) && |s.rc| == |s.used| && KeepsFront(s, op)
    ensures Dense(Step(s, op, zero))
  {
    match op
    case OpAlloc(n) => ClaimDense(s, n, zero);
    case OpFree(p, n) => FreeDense(s, p, n);
    case OpIncref(p) =>
    case OpClaim(n) => ClaimDense(s, n, zero);
    case OpRelease(p, n) => ReleaseDense(s, p, n);
    case OpReserve(p) =>
    case OpMarkUsed(p, n) => MarkUsedDense(s, p, n);
    case OpMarkFree(p, n) =>
  }

  /** After any such history, with arbitrary releases in between, a claim of one
      page or of a big run returns the lowest free run: the roll-back next-fit is
      first-fit. */
  lemma {:induction false} RunIsFirstFit(s: State, ops: seq<Op>, zero: int, n: nat)
    requires Dense(s) && |s.rc| == |s.used| && AllKeepFront(s, ops, zero) && FirstFitSize(n)
    ensures Dense(Run(s, ops, zero))
    ensures var r := Run(s, ops, zero); ClaimStart(r, n) == LowestRun(r.used, 0, |r.used|, n)
    decreases |ops|
  {
    if ops == [] {
      ClaimIsLowestIff(s, n);
      forall p: nat | p < Origin(s) ensures !FreeRun(s.used, p, n) { assert s.used[p]; }
    } else {
      StepDense(s, ops[0], zero);
      RunIsFirstFit(Step(s, ops[0], zero), ops[1..], zero, n);
    }
  }

  /** Five pages from boot: two single pages, the first given back, then two pages. */
  function HoleOps(): seq<Op> { [OpMarkFree(0, 5), OpAlloc(1), OpAlloc(1), OpFree(0, 1), OpAlloc(2)] }

  /** The state after so many of them. */
  function HoleState(i: nat): State {
    if i == 0 then Setup(5)
    else if i == 1 then State([false, false, false, false, false], [0, 0, 0, 0, 0], 0, 0)
    else if i == 2 then State([true, false, false, false, false], [1, 0, 0, 0, 0], 1, 1)
    else if i == 3 then State([true, true, false, false, false], [1, 1, 0, 0, 0], 2, 2)
    else if i == 4 then State([false, true, false, false, false], [0, 1, 0, 0, 0], 1, 0)
    else State([false, true, true, true, false], [0, 1, 1, 1, 0], 3, 4)
  }

  lemma PaintFive()
    ensures Step(Setup(5), OpMarkFree(0, 5), -1) == HoleState(1) && Allowed(Setup(5), OpMarkFree(0, 5))
  {
    var s0 := Setup(5);
    assert s0 == State([true, true, true, true, true], [0, 0, 0, 0, 0], 5, 0);
    var s1 := ClearPage(s0, 0);
    var s2 := ClearPage(s1, 1);
    var s3 := ClearPage(s2, 2);
    var s4 := ClearPage(s3, 3);
    var s5 := ClearPage(s4, 4);
    assert MarkFree(s4, 4, 1) == s5;
    assert MarkFree(s3, 3, 2) == s5;
    assert MarkFree(s2, 2, 3) == s5;
    assert MarkFree(s1, 1, 4) == s5;
  }

  lemma FirstSingle()
    ensures Step(HoleState(1), OpAlloc(1), -1) == HoleState(2)
  {
    var s := HoleState(1);
    LowestRunUnique(s.used, 0, 5, 1, 0);
    var t := Step(s, OpAlloc(1), -1);
    assert t.used == [true, false, false, false, false] && t.rc == [1, 0, 0, 0, 0];
  }

  lemma SecondSingle()
    ensures Step(HoleState(2), OpAlloc(1), -1) == HoleState(3)
  {
    var s := HoleState(2);
    LowestRunUnique(s.used, 1, 5, 1, 1);
    var t := Step(s, OpAlloc(1), -1);
    assert t.used == [true, true, false, false, false] && t.rc == [1, 1, 0, 0, 0];
  }

  lemma FirstGivenBack()
    ensures Step(HoleState(3), OpFree(0, 1), -1) == HoleState(4)
  {
    var t := FreeOne(HoleState(3), 0);
    assert t == HoleState(4);
    assert Free(t, 1, 0) == t;
  }

  lemma PairPastHole()
    ensures Step(HoleState(4), OpAlloc(2), -1) == HoleState(5)
  {
    var u := HoleState(4).used;
    assert !FreeRun(u, 0, 2) && !FreeRun(u, 1, 2) by { assert u[1]; }
    LowestRunUnique(u, 0, 5, 2, 2);
    var r := Step(HoleState(4), OpAlloc(2), -1);
    assert r.used == [false, true, true, true, false] && r.rc == [0, 1, 1, 1, 0];
  }

  lemma HoleStep(i: nat, s: State, op: Op, zero: int)
    requires i < 5 && s == HoleState(i) && op == HoleOps()[i] && zero == -1
    ensures |s.rc| == |s.used| && Allowed(s, op) && Step(s, op, zero) == HoleState(i + 1)
  {
    if i == 0 { PaintFive(); }
    else if i == 1 { FirstSingle(); }
    else if i == 2 { SecondSingle(); }
    else if i == 3 { FirstGivenBack(); }
    else { PairPastHole(); }
  }

  lemma {:induction false} HoleRun(i: nat, s: State, ops: seq<Op>, zero: int)
    requires i <= 5 && s == HoleState(i) && |ops| == 5 - i && zero == -1
    requires forall j :: 0 <= j < |ops| ==> ops[j] == HoleOps()[i + j]
    ensures |s.rc| == |s.used| && AllAllowed(s, ops, zero) && Run(s, ops, zero) == HoleState(5)
    decreases |ops|
  {
    if i < 5 {
      HoleStep(i, s, ops[0], zero);
      HoleRun(i + 1, HoleState(i + 1), ops[1..], zero);
    }
  }

  /** Runs of 2 to 15 pages are the exception: claiming two pages past a one-page hole
      moves the origin over it, and the next single page claimed is page 4, not page 0. */
  lemma SmallRunSkipsHole(s: State, ops: seq<Op>, zero: int)
    requires s == Setup(5) && ops == HoleOps() && zero == -1
    ensures |s.rc| == |s.used| && AllAllowed(s, ops, zero)
    ensures var r := Run(s, ops, zero);
            ClaimStart(r, 1) == Some(4) && LowestRun(r.used, 0, |r.used|, 1) == Some(0)
  {
    HoleRun(0, s, ops, zero);
    var r := HoleState(5);
    LowestRunUnique(r.used, 4, 5, 1, 4);
    LowestRunUnique(r.used, 0, 5, 1, 0);
  }

  // ---- alloc and free undo each other ----------------------------------------

  /** Freeing a run of pages that have one reference each frees exactly those. */
  lemma {:induction false} FreeRunEffect(t: State, p: nat, n: nat)
    requires Exact(t) && p + n <= |t.used|
    requires forall i :: p <= i < p + n ==> t.rc[i] == 1
    ensures Exact(Free(t, p, n))
    ensures forall i :: 0 <= i < |t.used| ==> Free(t, p, n).used[i] == (t.used[i] && !(p <= i < p + n))
    ensures forall i :: 0 <= i < |t.used| ==> Free(t, p, n).rc[i] == if p <= i < p + n then 0 else t.rc[i]
    decreases n
  {
    if n > 0 {
      FreeOneReturnsLast(t, p);
      FreeRunEffect(FreeOne(t, p), p + 1, n - 1);
    }
  }

  /** Freeing what an allocation returned restores every bit and every count. */
  lemma AllocThenFree(s: State, n: nat, zero: int)
    requires Exact(s) && n > 0 && ClaimStart(s, n).Some? && ClaimStart(s, n).value != zero
    ensures var r := Free(Alloc(s, n, zero), ClaimStart(s, n).value, n);
            r.used == s.used && r.rc == s.rc && r.count == s.count
  {
    ClaimExact(s, n, zero);
    ClaimComplete(s, n);
    FreeRunEffect(Alloc(s, n, zero), ClaimStart(s, n).value, n);
    var r := Free(Alloc(s, n, zero), ClaimStart(s, n).value, n);
    assert r.used == s.used && r.rc == s.rc;
  }
}
