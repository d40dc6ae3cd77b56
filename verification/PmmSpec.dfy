/** The physical page allocator as a value: one bit and one reference count per
    page, the number of set bits, and the next-fit origin. Pages are named by
    their number relative to the managed range; a number outside it is a page the
    allocator does not own. Every operation of kernel/pmm_core.c has a function
    here; `Pmm` proves the in-place code against these, and the properties the
    allocator promises are lemmas in `PmmProps`. */
module PmmSpec {
  import opened Prelude

  const BIG_PAGES: nat := 16
  const RC_MAX: nat := 0xffff

  datatype State = State(used: seq<bool>, rc: seq<nat>, count: int, next: nat)

  /** What the representation itself guarantees. */
  predicate Shaped(s: State) {
    && |s.rc| == |s.used|
    && forall p :: 0 <= p < |s.rc| ==> s.rc[p] <= RC_MAX
  }

  // ---- free runs and the lowest one -------------------------------------

  predicate FreeRun(u: seq<bool>, start: nat, n: nat) {
    start + n <= |u| && forall i :: start <= i < start + n ==> !u[i]
  }

  /** The lowest free run of `n` pages inside [from, end), by trying every start. */
  function LowestRun(u: seq<bool>, from: nat, end: nat, n: nat): (r: Option<nat>)
    requires end <= |u|
    ensures r.Some? ==> from <= r.value && r.value + n <= end && FreeRun(u, r.value, n)
    ensures forall s: nat :: from <= s && s + n <= end && FreeRun(u, s, n) ==> r.Some? && r.value <= s
    decreases end - from
  {
    if from + n > end then None
    else if FreeRun(u, from, n) then Some(from)
    else if from == end then None
    else LowestRun(u, from + 1, end, n)
  }

  lemma LowestRunUnique(u: seq<bool>, from: nat, end: nat, n: nat, s: nat)
    requires end <= |u| && from <= s && s + n <= end && FreeRun(u, s, n)
    requires forall t: nat :: from <= t < s && t + n <= end ==> !FreeRun(u, t, n)
    ensures LowestRun(u, from, end, n) == Some(s)
  {}

  // ---- operations ---------------------------------------------------------

  function Fill(u: seq<bool>, start: nat, n: nat): (r: seq<bool>)
    ensures |r| == |u|
  {
    seq(|u|, i requires 0 <= i < |u| => u[i] || start <= i < start + n)
  }

  /** The origin a claim starts from: an origin past the end means page 0. */
  function Origin(s: State): nat {
    if s.next >= |s.used| then 0 else s.next
  }

  function ClaimStart(s: State, n: nat): Option<nat> {
    if n == 0 || |s.used| == 0 then None
    else if n >= BIG_PAGES then LowestRun(s.used, 0, |s.used|, n)
    else
      var o := Origin(s);
      match LowestRun(s.used, o, |s.used|, n)
      case Some(p) => Some(p)
      case None => LowestRun(s.used, 0, Min(o + n - 1, |s.used|), n)
  }

  function Claim(s: State, n: nat): State {
    if n == 0 || |s.used| == 0 then s
    else
      var s1 := s.(next := Origin(s));
      match ClaimStart(s, n)
      case None => s1
      case Some(p) =>
        s1.(used := Fill(s.used, p, n), count := s.count + n,
            next := if n >= BIG_PAGES then s1.next else p + n)
  }

  predicate Managed(s: State, p: int) { 0 <= p < |s.used| }

  function ClearPage(s: State, p: nat): State
    requires p < |s.used|
  {
    if s.used[p] then s.(used := s.used[p := false], count := s.count - 1) else s
  }

  function SetPage(s: State, p: nat): State
    requires p < |s.used|
  {
    if s.used[p] then s else s.(used := s.used[p := true], count := s.count + 1)
  }

  function ClearRange(s: State, start: nat, n: nat): (r: State)
    ensures |r.used| == |s.used| && r.rc == s.rc && r.next == s.next
    decreases n
  {
    if n == 0 || start >= |s.used| then s
    else ClearRange(ClearPage(s, start), start + 1, n - 1)
  }

  /** Returning pages moves the origin back to them. */
  function Release(s: State, p: int, n: nat): State {
    if !Managed(s, p) then s
    else ClearRange(s.(next := if p < s.next then p else s.next), p, n)
  }

  function RcSetRange(rc: seq<nat>, start: nat, n: nat, v: nat): (r: seq<nat>)
    ensures |r| == |rc|
  {
    seq(|rc|, i requires 0 <= i < |rc| => if start <= i < start + n then v else rc[i])
  }

  /** A claim whose pages get one reference each. `zero` is the number of the page
      whose address is 0, if it is managed: a claim there is taken for a failure,
      and keeps its bits but gets no references. */
  function Alloc(s: State, n: nat, zero: int): State {
    var s1 := Claim(s, n);
    match ClaimStart(s, n)
    case None => s1
    case Some(p) => if p == zero then s1 else s1.(rc := RcSetRange(s1.rc, p, n, 1))
  }

  function FreeOne(s: State, p: int): (r: State)
    requires |s.rc| == |s.used|
    ensures |r.rc| == |r.used| == |s.used|
  {
    if !Managed(s, p) || s.rc[p] == 0 then s
    else
      var s1 := s.(rc := s.rc[p := s.rc[p] - 1]);
      if s1.rc[p] == 0 then Release(s1, p, 1) else s1
  }

  function Free(s: State, p: int, n: nat): (r: State)
    requires |s.rc| == |s.used|
    ensures |r.rc| == |r.used| == |s.used|
    decreases n
  {
    if n == 0 then s else Free(FreeOne(s, p), p + 1, n - 1)
  }

  function Incref(s: State, p: int): State
    requires |s.rc| == |s.used|
  {
    if Managed(s, p) && s.rc[p] < RC_MAX then s.(rc := s.rc[p := s.rc[p] + 1]) else s
  }

  function GetRef(s: State, p: int): nat
    requires |s.rc| == |s.used|
  {
    if Managed(s, p) then s.rc[p] else 0
  }

  /** Paints the managed pages among `n` pages from `p`. */
  function MarkFree(s: State, p: int, n: nat): (r: State)
    ensures |r.used| == |s.used| && r.rc == s.rc && r.next == s.next
    decreases n
  {
    if n == 0 then s
    else MarkFree(if Managed(s, p) then ClearPage(s, p) else s, p + 1, n - 1)
  }

  function MarkUsed(s: State, p: int, n: nat): (r: State)
    ensures |r.used| == |s.used| && r.rc == s.rc && r.next == s.next
    decreases n
  {
    if n == 0 then s
    else MarkUsed(if Managed(s, p) then SetPage(s, p) else s, p + 1, n - 1)
  }

  function ReservePage(s: State, p: int): State
    requires |s.rc| == |s.used|
  {
    if !Managed(s, p) || s.used[p] then s else SetPage(s, p).(rc := s.rc[p := 1])
  }

  function Setup(pages: nat): State {
    State(seq(pages, i => true), seq(pages, i => 0), pages, 0)
  }
}
