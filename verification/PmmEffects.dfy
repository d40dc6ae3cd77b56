/** What each allocator call does to every page, and what that means for two callers: the
    runs they hold never overlap. */
module PmmEffects {
  import opened Prelude
  import opened PmmSpec
  import opened PmmProps

  predicate In(i: int, p: int, n: nat) { p <= i < p + n }

  // ---- one call -----------------------------------------------------------------

  /** Every page of the run that was found is in use afterwards, and no other changed. */
  ghost predicate RunTaken(s: State, r: State, p: nat, n: nat) {
    && |r.used| == |s.used| && FreeRun(s.used, p, n) && r.count == s.count + n
    && forall i :: 0 <= i < |s.used| ==> r.used[i] == (s.used[i] || In(i, p, n))
  }

  lemma ClaimEffect(s: State, n: nat)
    requires n > 0
    ensures var r := Claim(s, n);
            && r.rc == s.rc
            && match ClaimStart(s, n)
               case Some(p) => RunTaken(s, r, p, n)
               case None => r.used == s.used && r.count == s.count
  {
    ClaimComplete(s, n);
  }

  /** An allocation takes a whole free run and gives each of its pages one reference; a
      failed one changes no bit and no count. */
  lemma AllocEffect(s: State, n: nat, zero: int)
    requires n > 0 && |s.rc| == |s.used|
    ensures var r := Alloc(s, n, zero);
            && |r.rc| == |s.rc|
            && match ClaimStart(s, n)
               case Some(p) =>
                 && RunTaken(s, r, p, n)
                 && (forall i :: 0 <= i < |s.rc| ==> r.rc[i] == if In(i, p, n) && p != zero then 1 else s.rc[i])
               case None => r.used == s.used && r.rc == s.rc && r.count == s.count
  {
    ClaimEffect(s, n);
  }

  /** A free takes one reference from each page of the range that has one, and makes free
      those that lose their last. */
  lemma {:induction false} FreeEffect(s: State, p: int, n: nat, i: nat)
    requires Exact(s) && i < |s.used|
    ensures Exact(Free(s, p, n))
    ensures Free(s, p, n).rc[i] == if In(i, p, n) && s.rc[i] > 0 then s.rc[i] - 1 else s.rc[i]
    ensures Free(s, p, n).used[i] == (s.used[i] && !(In(i, p, n) && s.rc[i] == 1))
    decreases n
  {
    if n > 0 {
      if Managed(s, p) && s.rc[p] > 0 { FreeOneReturnsLast(s, p); }
      FreeEffect(FreeOne(s, p), p + 1, n - 1, i);
    }
  }

  lemma {:induction false} ClearRangeIs(s: State, start: nat, n: nat, i: nat)
    requires i < |s.used|
    ensures ClearRange(s, start, n).used[i] == (s.used[i] && !In(i, start, n))
    decreases n
  {
    if n > 0 && start < |s.used| { ClearRangeIs(ClearPage(s, start), start + 1, n - 1, i); }
  }

  /** The raw release makes exactly its range free, references or not, when it starts at a
      page of the allocator. */
  lemma ReleaseEffect(s: State, p: int, n: nat, i: nat)
    requires i < |s.used|
    ensures Release(s, p, n).used[i] == (s.used[i] && !(Managed(s, p) && In(i, p, n)))
    ensures Release(s, p, n).rc == s.rc && |Release(s, p, n).used| == |s.used|
  {
    if Managed(s, p) { ClearRangeIs(s.(next := if p < s.next then p else s.next), p, n, i); }
  }

  lemma IncrefEffect(s: State, p: int, i: nat)
    requires |s.rc| == |s.used| && i < |s.rc|
    ensures Incref(s, p).rc[i] == if i == p && s.rc[i] < RC_MAX then s.rc[i] + 1 else s.rc[i]
    ensures Incref(s, p).used == s.used && Incref(s, p).count == s.count && Incref(s, p).next == s.next
  {
  }

  /** A reserved page is in use and referenced; nothing else changes. */
  lemma ReserveEffect(s: State, p: int, i: nat)
    requires Exact(s) && i < |s.used|
    ensures ReservePage(s, p).used[i] == (s.used[i] || i == p)
    ensures ReservePage(s, p).rc[i] == if i == p && !s.used[i] then 1 else s.rc[i]
  {
  }

  lemma {:induction false} MarkFreeIs(s: State, p: int, n: nat, i: nat)
    requires i < |s.used|
    ensures MarkFree(s, p, n).used[i] == (s.used[i] && !In(i, p, n))
    decreases n
  {
    if n > 0 { MarkFreeIs(if Managed(s, p) then ClearPage(s, p) else s, p + 1, n - 1, i); }
  }

  lemma {:induction false} MarkUsedIs(s: State, p: int, n: nat, i: nat)
    requires i < |s.used|
    ensures MarkUsed(s, p, n).used[i] == (s.used[i] || In(i, p, n))
    decreases n
  {
    if n > 0 { MarkUsedIs(if Managed(s, p) then SetPage(s, p) else s, p + 1, n - 1, i); }
  }

  // ---- two callers --------------------------------------------------------------

  /** Can the call make page `i` free? */
  predicate GivesBack(op: Op, i: int) {
    (op.OpFree? || op.OpRelease? || op.OpMarkFree?) && In(i, op.p, op.n)
  }

  lemma StepKeepsPage(s: State, op: Op, zero: int, i: nat)
    requires Exact(s) && Allowed(s, op) && i < |s.used| && s.used[i] && !GivesBack(op, i)
    ensures Step(s, op, zero).used[i]
  {
    match op
    case OpAlloc(n) => if n > 0 { AllocEffect(s, n, zero); }
    case OpFree(p, n) => FreeEffect(s, p, n, i);
    case OpIncref(p) =>
    case OpClaim(n) => if n > 0 { ClaimEffect(s, n); }
    case OpRelease(p, n) => ReleaseEffect(s, p, n, i);
    case OpReserve(p) => ReserveEffect(s, p, i);
    case OpMarkUsed(p, n) => MarkUsedIs(s, p, n, i);
    case OpMarkFree(p, n) => MarkFreeIs(s, p, n, i);
  }

  ghost predicate NoneGivesBack(ops: seq<Op>, i: int) { forall j :: 0 <= j < |ops| ==> !GivesBack(ops[j], i) }

  /** A page stays in use over any history that does not give it back. */
  lemma {:induction false} RunKeepsPage(s: State, ops: seq<Op>, zero: int, i: nat)
    requires Exact(s) && AllAllowed(s, ops, zero) && i < |s.used| && s.used[i] && NoneGivesBack(ops, i)
    ensures Exact(Run(s, ops, zero)) && Run(s, ops, zero).used[i]
    decreases |ops|
  {
    if ops != [] {
      StepExact(s, ops[0], zero);
      StepKeepsPage(s, ops[0], zero, i);
      RunKeepsPage(Step(s, ops[0], zero), ops[1..], zero, i);
    }
  }

  /** Two allocations with any history between them that gives no page of the first back:
      their runs share no page. */
  lemma LiveRunsAreDisjoint(s: State, n: nat, ops: seq<Op>, m: nat, zero: int)
    requires Exact(s) && n > 0 && m > 0 && ClaimStart(s, n).Some?
    requires AllAllowed(Alloc(s, n, zero), ops, zero)
    requires forall i :: In(i, ClaimStart(s, n).value, n) ==> NoneGivesBack(ops, i)
    ensures var r := Run(Alloc(s, n, zero), ops, zero);
            ClaimStart(r, m).Some? ==>
              var p, q := ClaimStart(s, n).value, ClaimStart(r, m).value;
              p + n <= q || q + m <= p
  {
    var p, s1 := ClaimStart(s, n).value, Alloc(s, n, zero);
    AllocEffect(s, n, zero);
    ClaimExact(s, n, zero);
    var r := Run(s1, ops, zero);
    ClaimComplete(r, m);
    if ClaimStart(r, m).Some? {
      var q := ClaimStart(r, m).value;
      var i := if p < q then q else p;
      if i < p + n && i < q + m {
        RunKeepsPage(s1, ops, zero, i);
        assert false;
      }
    }
  }
}
