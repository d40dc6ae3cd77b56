/** The controller posts events; the host pumps them into the stash, takes matches,
    and sometimes drains everything. Every completion is accounted for; those lost to
    overflow are counted, those lost to a drain are not. */
module XhciRun {
  import opened Prelude
  import opened XhciEvents

  datatype EvtSlot = EvtSlot(e: Event, cycle: bool)

  /** `posted` and `got` are the events written by the controller and dequeued by the
      host; the laps count full rounds. */
  datatype Ring = Ring(
    slots: seq<EvtSlot>, idx: nat, pcs: bool, lap: nat, posted: seq<Event>,
    deq: nat, ccs: bool, hostLap: nat, got: seq<Event>)

  /** What is dequeued is `discarded` by a drain or `pumped` to the stash; from there it is
      `taken`, `lost` to overflow, or `cleared` by a drain. */
  datatype Books = Books(
    stash: seq<Event>, dropped: nat,
    pumped: seq<Event>, taken: seq<Event>, lost: seq<Event>, cleared: seq<Event>, discarded: seq<Event>)

  datatype State = State(ring: Ring, books: Books)

  const Blank := EvtSlot(Event(0, 0, 0, 0, 0), false)

  function Start(): State {
    State(Ring(seq(EVT_TRBS, _ => Blank), 0, true, 0, [], 0, true, 0, []), Books([], 0, [], [], [], [], []))
  }

  predicate HasEvent(s: Ring) { s.deq < EVT_TRBS == |s.slots| && s.slots[s.deq].cycle == s.ccs }

  function Dequeued(s: Ring): Ring
    requires HasEvent(s)
  {
    var u := s.(deq := s.deq + 1, got := s.got + [s.slots[s.deq].e]);
    if u.deq >= EVT_TRBS then u.(deq := 0, ccs := !s.ccs, hostLap := s.hostLap + 1) else u
  }

  function Written(s: Ring, e: Event): Ring
    requires s.idx < |s.slots|
  {
    s.(slots := s.slots[s.idx := EvtSlot(e, s.pcs)], idx := s.idx + 1, posted := s.posted + [e])
  }

  function Wrapped(s: Ring): Ring { s.(idx := 0, pcs := !s.pcs, lap := s.lap + 1) }

  function Posted(s: Ring, e: Event): Ring
    requires s.idx < |s.slots|
  {
    var u := Written(s, e);
    if u.idx == EVT_TRBS then Wrapped(u) else u
  }

  function Pumped(b: Books, e: Event): Books {
    b.(stash := Stashed(b.stash, e), dropped := b.dropped + |Victim(b.stash, e)|,
       pumped := b.pumped + [e], lost := b.lost + Victim(b.stash, e))
  }

  function Taken(b: Books, w: Want): Books {
    match FirstMatch(b.stash, w, 0)
    case None => b
    case Some(k) => b.(stash := Removed(b.stash, k), taken := b.taken + [b.stash[k]])
  }

  datatype Step = Post(e: Event) | Pump | Discard | Clear | Take(w: Want)

  /** The controller does not overrun the host. */
  predicate Enabled(s: State, step: Step) {
    match step
    case Post(e) => s.ring.idx < EVT_TRBS == |s.ring.slots| && |s.ring.posted| < |s.ring.got| + EVT_TRBS
    case Pump => HasEvent(s.ring)
    case Discard => HasEvent(s.ring)
    case Clear => true
    case Take(w) => true
  }

  function Apply(s: State, step: Step): State
    requires Enabled(s, step)
  {
    match step
    case Post(e) => s.(ring := Posted(s.ring, e))
    case Pump => State(Dequeued(s.ring), Pumped(s.books, s.ring.slots[s.ring.deq].e))
    case Discard =>
      State(Dequeued(s.ring), s.books.(discarded := s.books.discarded + [s.ring.slots[s.ring.deq].e]))
    case Clear => s.(books := s.books.(stash := [], cleared := s.books.cleared + s.books.stash))
    case Take(w) => s.(books := Taken(s.books, w))
  }

  // ---- the ring -----------------------------------------------------------------

  predicate CycleOf(lap: nat) { lap % 2 == 0 }

  ghost predicate SlotOk(s: Ring, i: nat)
    requires i < |s.slots|
  {
    if i < s.idx then
      EVT_TRBS * s.lap + i < |s.posted| && s.slots[i] == EvtSlot(s.posted[EVT_TRBS * s.lap + i], CycleOf(s.lap))
    else if s.lap > 0 then
      EVT_TRBS * (s.lap - 1) + i < |s.posted|
        && s.slots[i] == EvtSlot(s.posted[EVT_TRBS * (s.lap - 1) + i], CycleOf(s.lap - 1))
    else !s.slots[i].cycle
  }

  ghost predicate RingOk(s: Ring) {
    && |s.slots| == EVT_TRBS && s.idx <= EVT_TRBS && s.deq < EVT_TRBS
    && |s.posted| == EVT_TRBS * s.lap + s.idx && |s.got| == EVT_TRBS * s.hostLap + s.deq
    && s.pcs == CycleOf(s.lap) && s.ccs == CycleOf(s.hostLap)
    && |s.got| <= |s.posted| <= |s.got| + EVT_TRBS && s.got == s.posted[..|s.got|]
    && forall i {:trigger SlotOk(s, i)} :: 0 <= i < EVT_TRBS ==> SlotOk(s, i)
  }

  /** Host and controller are on the same lap, or the host is one behind. */
  lemma Laps(lap: nat, idx: nat, hostLap: nat, deq: nat)
    requires idx < EVT_TRBS && deq < EVT_TRBS
    requires EVT_TRBS * hostLap + deq <= EVT_TRBS * lap + idx <= EVT_TRBS * hostLap + deq + EVT_TRBS
    ensures (lap == hostLap && deq <= idx) || (lap == hostLap + 1 && idx <= deq)
  {
  }

  /** The cycle bit says exactly whether an event is waiting, and it is the next one. */
  lemma EventIffOutstanding(s: Ring)
    requires RingOk(s) && s.idx < EVT_TRBS
    ensures HasEvent(s) <==> |s.got| < |s.posted|
    ensures HasEvent(s) ==> s.slots[s.deq].e == s.posted[|s.got|]
  {
    Laps(s.lap, s.idx, s.hostLap, s.deq);
    assert SlotOk(s, s.deq);
  }

  lemma WriteKeeps(s: Ring, e: Event)
    requires RingOk(s) && s.idx < EVT_TRBS && |s.posted| < |s.got| + EVT_TRBS
    ensures RingOk(Written(s, e))
  {
    var r := Written(s, e);
    forall i | 0 <= i < EVT_TRBS ensures SlotOk(r, i) { assert SlotOk(s, i); }
  }

  lemma WrapKeeps(s: Ring)
    requires RingOk(s) && s.idx == EVT_TRBS
    ensures RingOk(Wrapped(s))
  {
    var r := Wrapped(s);
    forall i | 0 <= i < EVT_TRBS ensures SlotOk(r, i) { assert SlotOk(s, i); }
  }

  lemma PostKeeps(s: Ring, e: Event)
    requires RingOk(s) && s.idx < EVT_TRBS && |s.posted| < |s.got| + EVT_TRBS
    ensures RingOk(Posted(s, e)) && Posted(s, e).idx < EVT_TRBS
  {
    WriteKeeps(s, e);
    if Written(s, e).idx == EVT_TRBS { WrapKeeps(Written(s, e)); }
  }

  lemma DequeueSlots(s: Ring, i: nat)
    requires HasEvent(s) && i < |s.slots| && SlotOk(s, i)
    ensures SlotOk(Dequeued(s), i)
  {
  }

  lemma DequeueKeeps(s: Ring)
    requires RingOk(s) && s.idx < EVT_TRBS && HasEvent(s)
    ensures RingOk(Dequeued(s)) && Dequeued(s).idx < EVT_TRBS
  {
    EventIffOutstanding(s);
    var r := Dequeued(s);
    assert s.posted[..|r.got|] == s.posted[..|s.got|] + [s.posted[|s.got|]];
    forall i | 0 <= i < EVT_TRBS ensures SlotOk(r, i) { assert SlotOk(s, i); DequeueSlots(s, i); }
  }

  // ---- the books ----------------------------------------------------------------

  function Completions(es: seq<Event>): seq<Event> {
    if es == [] then []
    else Completions(es[..|es| - 1]) + (if IsCompletion(es[|es| - 1]) then [es[|es| - 1]] else [])
  }

  /** `a` is `b` with some entries left out. */
  predicate Subsequence(a: seq<Event>, b: seq<Event>)
    decreases |b|
  {
    a == [] || (b != [] && (Subsequence(a, b[..|b| - 1])
                            || (a[|a| - 1] == b[|b| - 1] && Subsequence(a[..|a| - 1], b[..|b| - 1]))))
  }

  lemma SubsequenceAppend(a: seq<Event>, b: seq<Event>, e: Event)
    requires Subsequence(a, b)
    ensures Subsequence(a, b + [e]) && Subsequence(a + [e], b + [e])
  {
    assert (b + [e])[..|b + [e]| - 1] == b && (a + [e])[..|a + [e]| - 1] == a;
  }

  lemma {:induction false} SubsequenceRemove(a: seq<Event>, b: seq<Event>, k: nat)
    requires Subsequence(a, b) && k < |a|
    ensures Subsequence(Removed(a, k), b)
    decreases |b|
  {
    var b' := b[..|b| - 1];
    var r := Removed(a, k);
    if Subsequence(a, b') {
      SubsequenceRemove(a, b', k);
    } else if k == |a| - 1 {
      assert r == a[..|a| - 1];
    } else {
      SubsequenceRemove(a[..|a| - 1], b', k);
      assert r[..|r| - 1] == Removed(a[..|a| - 1], k);
    }
  }

  /** Every completion pumped is taken, in the stash, counted as dropped or cleared;
      the stash is in order of arrival. */
  ghost predicate BooksOk(s: Books) {
    && multiset(Completions(s.pumped)) == multiset(s.taken) + multiset(s.stash) + multiset(s.lost) + multiset(s.cleared)
    && |s.lost| == s.dropped && |s.stash| <= STASH_CAP
    && Subsequence(s.stash, Completions(s.pumped))
  }

  lemma StashBooks(st: seq<Event>, e: Event)
    ensures multiset(st) + (if IsCompletion(e) then multiset{e} else multiset{})
            == multiset(Stashed(st, e)) + multiset(Victim(st, e))
  {
    if |st| >= STASH_CAP { assert st == [st[0]] + st[1..]; }
  }

  lemma RemovedBooks(st: seq<Event>, k: nat)
    requires k < |st|
    ensures multiset(st) == multiset(Removed(st, k)) + multiset{st[k]}
  {
    assert st == st[..k] + [st[k]] + st[k + 1..];
  }

  lemma CompletionsAppend(es: seq<Event>, e: Event)
    ensures Completions(es + [e]) == if IsCompletion(e) then Completions(es) + [e] else Completions(es)
  {
    assert (es + [e])[..|es + [e]| - 1] == es;
  }

  lemma PumpOrder(st: seq<Event>, b: seq<Event>, e: Event)
    requires Subsequence(st, b) && IsCompletion(e)
    ensures Subsequence(Stashed(st, e), b + [e])
  {
    if |st| >= STASH_CAP {
      SubsequenceRemove(st, b, 0);
      assert Removed(st, 0) == st[1..];
      SubsequenceAppend(st[1..], b, e);
    } else {
      SubsequenceAppend(st, b, e);
    }
  }

  lemma PumpCounts(b: Books, e: Event)
    requires multiset(Completions(b.pumped))
             == multiset(b.taken) + multiset(b.stash) + multiset(b.lost) + multiset(b.cleared)
    ensures var r := Pumped(b, e);
            multiset(Completions(r.pumped))
              == multiset(r.taken) + multiset(r.stash) + multiset(r.lost) + multiset(r.cleared)
  {
    var delta := if IsCompletion(e) then multiset{e} else multiset{};
    var r := Pumped(b, e);
    StashBooks(b.stash, e);
    CompletionsAppend(b.pumped, e);
    assert multiset(Completions(r.pumped)) == multiset(Completions(b.pumped)) + delta;
    assert multiset(r.lost) == multiset(b.lost) + multiset(Victim(b.stash, e));
    Balance(multiset(Completions(b.pumped)), multiset(b.taken), multiset(b.stash), multiset(b.lost),
            multiset(b.cleared),
            delta, multiset(r.stash), multiset(Victim(b.stash, e)));
  }

  lemma Balance(all: multiset<Event>, taken: multiset<Event>, stash: multiset<Event>, lost: multiset<Event>,
                cleared: multiset<Event>, delta: multiset<Event>, next: multiset<Event>, victim: multiset<Event>)
    requires all == taken + stash + lost + cleared && stash + delta == next + victim
    ensures all + delta == taken + next + (lost + victim) + cleared
  {
    forall x ensures (all + delta)[x] == (taken + next + (lost + victim) + cleared)[x] {
      assert (stash + delta)[x] == (next + victim)[x];
    }
  }

  lemma PumpBooks(b: Books, e: Event)
    requires BooksOk(b)
    ensures BooksOk(Pumped(b, e))
  {
    PumpCounts(b, e);
    CompletionsAppend(b.pumped, e);
    if IsCompletion(e) { PumpOrder(b.stash, Completions(b.pumped), e); }
  }

  lemma TakeBooks(b: Books, w: Want)
    requires BooksOk(b)
    ensures BooksOk(Taken(b, w))
  {
    var m := FirstMatch(b.stash, w, 0);
    if m.Some? {
      RemovedBooks(b.stash, m.value);
      SubsequenceRemove(b.stash, Completions(b.pumped), m.value);
    }
  }

  // ---- what each step does to the stash -----------------------------------------

  /** A take hands over the oldest match, if there is one, and the others stay in order. */
  lemma TakeEffect(b: Books, w: Want, k: nat)
    requires k < |b.stash| && Matches(b.stash[k], w) && forall j :: 0 <= j < k ==> !Matches(b.stash[j], w)
    ensures Taken(b, w) == b.(stash := b.stash[..k] + b.stash[k + 1..], taken := b.taken + [b.stash[k]])
  {
    assert FirstMatch(b.stash, w, 0) == Some(k);
  }

  lemma TakeMisses(b: Books, w: Want)
    requires forall j :: 0 <= j < |b.stash| ==> !Matches(b.stash[j], w)
    ensures Taken(b, w) == b
  {
  }

  /** A pump moves the next event of the ring to the stash; a discard drops it and leaves the
      stash alone; a clear empties the stash. */
  lemma DrainEffect(s: State)
    requires Inv(s) && Enabled(s, Pump)
    ensures |s.ring.got| < |s.ring.posted|
    ensures var e := s.ring.posted[|s.ring.got|];
            && Apply(s, Pump).ring.got == Apply(s, Discard).ring.got == s.ring.got + [e]
            && Apply(s, Pump).books.pumped == s.books.pumped + [e]
            && Apply(s, Pump).books.stash == Stashed(s.books.stash, e)
            && Apply(s, Discard).books == s.books.(discarded := s.books.discarded + [e])
            && Apply(s, Clear).books.stash == [] && Apply(s, Clear).ring == s.ring
  {
    EventIffOutstanding(s.ring);
  }

  // ---- runs ---------------------------------------------------------------------

  /** What was dequeued was pumped or discarded, and pumped in the order of dequeueing. */
  ghost predicate HandedOn(got: seq<Event>, pumped: seq<Event>, discarded: seq<Event>) {
    multiset(got) == multiset(pumped) + multiset(discarded) && Subsequence(pumped, got)
  }

  ghost predicate Inv(s: State) {
    && RingOk(s.ring) && s.ring.idx < EVT_TRBS && BooksOk(s.books)
    && HandedOn(s.ring.got, s.books.pumped, s.books.discarded)
  }

  lemma HandOn(got: seq<Event>, pumped: seq<Event>, discarded: seq<Event>, e: Event)
    requires HandedOn(got, pumped, discarded)
    ensures HandedOn(got + [e], pumped + [e], discarded) && HandedOn(got + [e], pumped, discarded + [e])
  {
    SubsequenceAppend(pumped, got, e);
    assert multiset(got + [e]) == multiset(got) + multiset{e};
    assert multiset(pumped + [e]) == multiset(pumped) + multiset{e};
    assert multiset(discarded + [e]) == multiset(discarded) + multiset{e};
  }

  lemma PumpKeeps(s: State)
    requires Inv(s) && Enabled(s, Pump)
    ensures Inv(Apply(s, Pump))
  {
    var e := s.ring.slots[s.ring.deq].e;
    PumpHands(s.ring, s.books, e);
    DequeueKeeps(s.ring);
    PumpBooks(s.books, e);
  }

  lemma PumpHands(r: Ring, b: Books, e: Event)
    requires HasEvent(r) && e == r.slots[r.deq].e && HandedOn(r.got, b.pumped, b.discarded)
    ensures HandedOn(Dequeued(r).got, Pumped(b, e).pumped, Pumped(b, e).discarded)
  {
    HandOn(r.got, b.pumped, b.discarded, e);
  }

  lemma DiscardKeeps(s: State)
    requires Inv(s) && Enabled(s, Discard)
    ensures Inv(Apply(s, Discard))
  {
    DequeueKeeps(s.ring);
    HandOn(s.ring.got, s.books.pumped, s.books.discarded, s.ring.slots[s.ring.deq].e);
  }

  lemma StepKeeps(s: State, step: Step)
    requires Inv(s) && Enabled(s, step)
    ensures Inv(Apply(s, step))
  {
    match step
    case Post(e) => PostKeeps(s.ring, e);
    case Pump => PumpKeeps(s);
    case Discard => DiscardKeeps(s);
    case Clear =>
    case Take(w) => TakeBooks(s.books, w);
  }

  predicate AllEnabled(s: State, steps: seq<Step>)
    decreases |steps|
  {
    steps == [] || (Enabled(s, steps[0]) && AllEnabled(Apply(s, steps[0]), steps[1..]))
  }

  function Run(s: State, steps: seq<Step>): State
    requires AllEnabled(s, steps)
    decreases |steps|
  {
    if steps == [] then s else Run(Apply(s, steps[0]), steps[1..])
  }

  lemma {:induction false} RunKeeps(s: State, steps: seq<Step>)
    requires Inv(s) && AllEnabled(s, steps)
    ensures Inv(Run(s, steps))
    decreases |steps|
  {
    if steps != [] {
      StepKeeps(s, steps[0]);
      RunKeeps(Apply(s, steps[0]), steps[1..]);
    }
  }

  /** At any time: the events dequeued are the first posted, each once and in order,
      and the ring looks empty exactly when all were dequeued; those dequeued are those
      pumped, in order, and those discarded; the completions pumped are those taken,
      stashed, dropped and cleared; the stash keeps their order. */
  lemma EventsAreConserved(steps: seq<Step>)
    requires AllEnabled(Start(), steps)
    ensures var r, b := Run(Start(), steps).ring, Run(Start(), steps).books;
            && r.got <= r.posted && (HasEvent(r) <==> r.got != r.posted)
            && multiset(r.got) == multiset(b.pumped) + multiset(b.discarded) && Subsequence(b.pumped, r.got)
            && multiset(Completions(b.pumped))
               == multiset(b.taken) + multiset(b.stash) + multiset(b.lost) + multiset(b.cleared)
            && b.dropped == |b.lost|
            && Subsequence(b.stash, Completions(b.pumped))
  {
    assert Inv(Start());
    RunKeeps(Start(), steps);
    EventIffOutstanding(Run(Start(), steps).ring);
  }
}
