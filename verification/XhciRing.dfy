/** The transfer ring of section 4.9.2 of the xHCI specification 1.2: 255 slots and a
    Link entry with Toggle Cycle, a producer that writes one entry at a time, and a
    controller that owns an entry while its cycle bit equals its own. */
module XhciRing {

  const SLOTS: nat := 255
  /** Entries that may be outstanding: one slot stays free. */
  const OUTSTANDING: nat := 254

  /** An entry: its cycle bit, and everything else. */
  datatype Trb = Trb(body: int, cycle: bool)

  datatype Ring = Ring(slots: seq<Trb>, link: bool, idx: nat, cycle: bool)

  function Reset(): Ring { Ring(seq(SLOTS, _ => Trb(0, false)), true, 0, true) }

  function Write(r: Ring, body: int): Ring
    requires r.idx < |r.slots|
  {
    r.(slots := r.slots[r.idx := Trb(body, r.cycle)], idx := r.idx + 1)
  }

  /** Publish the Link entry with the cycle of this lap, then start the next. */
  function EndLap(r: Ring): Ring { r.(link := r.cycle, idx := 0, cycle := !r.cycle) }

  function Pushed(r: Ring, body: int): Ring
    requires r.idx < |r.slots|
  {
    var w := Write(r, body);
    if w.idx == SLOTS then EndLap(w) else w
  }

  // ---- in memory ----------------------------------------------------------------

  /** The body of the Link entry: type 6, Toggle Cycle, back to the first slot. */
  const LINK_BODY := 0x1802

  class TransferRing {
    const trbs: array<Trb>
    var idx: nat
    var cycle: bool

    ghost predicate Valid()
      reads this, trbs
    {
      trbs.Length == SLOTS + 1 && idx < SLOTS && trbs[SLOTS].body == LINK_BODY
    }

    ghost function Abs(): Ring
      requires Valid()
      reads this, trbs
    {
      Ring(trbs[..SLOTS], trbs[SLOTS].cycle, idx, cycle)
    }

    constructor ()
      ensures Valid() && fresh(trbs) && Abs() == Reset()
    {
      trbs := new Trb[SLOTS + 1](i => if i == SLOTS then Trb(LINK_BODY, true) else Trb(0, false));
      idx, cycle := 0, true;
      new;
      assert trbs[..SLOTS] == Reset().slots;
    }

    /** Returns the slot used. */
    method Push(body: int) returns (at: nat)
      requires Valid()
      modifies this, trbs
      ensures Valid() && Abs() == Pushed(old(Abs()), body)
      ensures at == old(idx)
    {
      at := idx;
      trbs[at] := Trb(body, cycle);
      ghost var written := trbs[..SLOTS];
      assert written == old(trbs[..SLOTS])[at := Trb(body, cycle)];
      idx := idx + 1;
      if idx == SLOTS {
        trbs[SLOTS] := Trb(LINK_BODY, cycle);
        assert trbs[..SLOTS] == written;
        idx := 0;
        cycle := !cycle;
      }
    }

    /** Step over `count` slots filled otherwise: index, cycle and Link entry move as
        if they had been pushed. */
    method Advance(count: nat)
      requires Valid()
      modifies this, trbs
      ensures Valid() && Abs() == Advanced(old(Abs()), count)
    {
      var left: nat := count;
      while left > 0
        invariant Valid() && left <= count
        invariant Advanced(Abs(), left) == Advanced(old(Abs()), count)
      {
        ghost var before := trbs[..SLOTS];
        idx := idx + 1;
        if idx == SLOTS {
          trbs[SLOTS] := trbs[SLOTS].(cycle := cycle);
          assert trbs[..SLOTS] == before;
          idx := 0;
          cycle := !cycle;
        }
        left := left - 1;
      }
    }
  }

  function AdvanceOne(r: Ring): Ring {
    var w := r.(idx := r.idx + 1);
    if w.idx == SLOTS then EndLap(w) else w
  }

  function Advanced(r: Ring, count: nat): Ring
    decreases count
  {
    if count == 0 then r else Advanced(AdvanceOne(r), count - 1)
  }

  function PushAll(r: Ring, bodies: seq<int>): Ring
    requires r.idx < SLOTS == |r.slots|
    decreases |bodies|
  {
    if bodies == [] then r else PushAll(Pushed(r, bodies[0]), bodies[1..])
  }

  /** Advancing moves the ring exactly as pushing that many entries would. */
  lemma {:induction false} AdvanceIsPush(a: Ring, r: Ring, bodies: seq<int>)
    requires a.idx < SLOTS == |a.slots| && r == a.(slots := r.slots)
    ensures Advanced(r, |bodies|) == PushAll(a, bodies).(slots := r.slots)
    decreases |bodies|
  {
    if bodies != [] { AdvanceIsPush(Pushed(a, bodies[0]), AdvanceOne(r), bodies[1..]); }
  }

  // ---- producer and controller --------------------------------------------------

  /** `deq` and `ccs` are the controller's position and cycle state; `pushed` and
      `got` the entries produced and consumed; the laps count full rounds. */
  datatype State = State(ring: Ring, lap: nat, pushed: seq<int>, deq: nat, ccs: bool, ctrlLap: nat, got: seq<int>)

  function Start(): State { State(Reset(), 0, [], 0, true, 0, []) }

  datatype Step = Produce(body: int) | CloseLap | Consume | FollowLink

  predicate Enabled(s: State, step: Step) {
    match step
    case Produce(body) => s.ring.idx < SLOTS == |s.ring.slots| && |s.pushed| < |s.got| + OUTSTANDING
    case CloseLap => s.ring.idx == SLOTS
    case Consume => s.deq < SLOTS == |s.ring.slots| && s.ring.slots[s.deq].cycle == s.ccs
    case FollowLink => s.deq == SLOTS && s.ring.link == s.ccs
  }

  function Apply(s: State, step: Step): State
    requires Enabled(s, step)
  {
    match step
    case Produce(body) => s.(ring := Write(s.ring, body), pushed := s.pushed + [body])
    case CloseLap => s.(ring := EndLap(s.ring), lap := s.lap + 1)
    case Consume => s.(deq := s.deq + 1, got := s.got + [s.ring.slots[s.deq].body])
    case FollowLink => s.(deq := 0, ccs := !s.ccs, ctrlLap := s.ctrlLap + 1)
  }

  predicate CycleOf(lap: nat) { lap % 2 == 0 }

  /** What slot `i` holds: this lap's entry, or the last lap's, or nothing yet. */
  ghost predicate SlotOk(s: State, i: nat)
    requires i < |s.ring.slots|
  {
    if i < s.ring.idx then
      SLOTS * s.lap + i < |s.pushed| && s.ring.slots[i] == Trb(s.pushed[SLOTS * s.lap + i], CycleOf(s.lap))
    else if s.lap > 0 then
      SLOTS * (s.lap - 1) + i < |s.pushed|
        && s.ring.slots[i] == Trb(s.pushed[SLOTS * (s.lap - 1) + i], CycleOf(s.lap - 1))
    else !s.ring.slots[i].cycle
  }

  ghost predicate Inv(s: State) {
    && |s.ring.slots| == SLOTS && s.ring.idx <= SLOTS && s.deq <= SLOTS
    && |s.pushed| == SLOTS * s.lap + s.ring.idx && |s.got| == SLOTS * s.ctrlLap + s.deq
    && s.ring.cycle == CycleOf(s.lap) && s.ccs == CycleOf(s.ctrlLap)
    && s.ring.link == (if s.lap == 0 then true else CycleOf(s.lap - 1))
    && |s.got| <= |s.pushed| <= |s.got| + OUTSTANDING && s.got == s.pushed[..|s.got|]
    && forall i {:trigger SlotOk(s, i)} :: 0 <= i < SLOTS ==> SlotOk(s, i)
  }

  lemma StartInv()
    ensures Inv(Start())
  {
  }

  /** The controller owns a slot exactly when an entry for it is outstanding. */
  lemma OwnsIffOutstanding(s: State)
    requires Inv(s) && s.deq < SLOTS
    ensures s.ring.slots[s.deq].cycle == s.ccs <==> |s.got| < |s.pushed|
    ensures s.ring.slots[s.deq].cycle == s.ccs ==> s.ring.slots[s.deq].body == s.pushed[|s.got|]
  {
    assert SlotOk(s, s.deq);
  }

  lemma ProduceKeeps(s: State, body: int)
    requires Inv(s) && Enabled(s, Produce(body))
    ensures Inv(Apply(s, Produce(body)))
  {
    var r := Apply(s, Produce(body));
    forall i | 0 <= i < SLOTS ensures SlotOk(r, i) { assert SlotOk(s, i); }
  }

  lemma CloseLapKeeps(s: State)
    requires Inv(s) && Enabled(s, CloseLap)
    ensures Inv(Apply(s, CloseLap))
  {
    var r := Apply(s, CloseLap);
    forall i | 0 <= i < SLOTS ensures SlotOk(r, i) { assert SlotOk(s, i); }
  }

  lemma ConsumeKeeps(s: State)
    requires Inv(s) && Enabled(s, Consume)
    ensures Inv(Apply(s, Consume))
  {
    OwnsIffOutstanding(s);
    var r := Apply(s, Consume);
    assert s.pushed[..|r.got|] == s.pushed[..|s.got|] + [s.pushed[|s.got|]];
    forall i | 0 <= i < SLOTS ensures SlotOk(r, i) { assert SlotOk(s, i); }
  }

  lemma FollowLinkKeeps(s: State)
    requires Inv(s) && Enabled(s, FollowLink)
    ensures Inv(Apply(s, FollowLink))
  {
    var r := Apply(s, FollowLink);
    forall i | 0 <= i < SLOTS ensures SlotOk(r, i) { assert SlotOk(s, i); }
  }

  lemma StepKeeps(s: State, step: Step)
    requires Inv(s) && Enabled(s, step)
    ensures Inv(Apply(s, step))
  {
    match step
    case Produce(body) => ProduceKeeps(s, body);
    case CloseLap => CloseLapKeeps(s);
    case Consume => ConsumeKeeps(s);
    case FollowLink => FollowLinkKeeps(s);
  }

  predicate AllEnabled(s: State, steps: seq<Step>)
    decreases |steps|
  {
    steps == [] || (Enabled(s, steps[0]) && AllEnabled(Apply(s, steps[0]), steps[1..]))
  }

  function Run(s: State, steps: seq<Step>): State
    requires AllEnabled(s, steps)
    decreases |steps|
  {
    if steps == [] then s else Run(Apply(s, steps[0]), steps[1..])
  }

  lemma {:induction false} RunKeeps(s: State, steps: seq<Step>)
    requires Inv(s) && AllEnabled(s, steps)
    ensures Inv(Run(s, steps))
    decreases |steps|
  {
    if steps != [] {
      StepKeeps(s, steps[0]);
      RunKeeps(Apply(s, steps[0]), steps[1..]);
    }
  }

  /** Over any number of laps the controller has taken exactly the first entries
      pushed, in order, and it can stop only when it has taken all of them. */
  lemma RingIsExactFifo(steps: seq<Step>)
    requires AllEnabled(Start(), steps)
    ensures var s := Run(Start(), steps);
            && s.got <= s.pushed
            && (!Enabled(s, Consume) && !Enabled(s, FollowLink) ==> s.got == s.pushed)
  {
    StartInv();
    RunKeeps(Start(), steps);
    var s := Run(Start(), steps);
    if s.deq < SLOTS { OwnsIffOutstanding(s); }
  }

  // ---- the driver's push --------------------------------------------------------

  /** Between two pushes the ring is never left at the Link entry. */
  predicate CanPush(s: State) { s.ring.idx < SLOTS == |s.ring.slots| && |s.pushed| < |s.got| + OUTSTANDING }

  /** One call of the driver; at the last slot it closes the lap too. */
  function DriverPush(s: State, body: int): State
    requires CanPush(s)
  {
    s.(ring := Pushed(s.ring, body), pushed := s.pushed + [body],
       lap := if s.ring.idx + 1 == SLOTS then s.lap + 1 else s.lap)
  }

  /** The driver's push is one step of the producer, or two at the end of a lap: the entry
      lies in the slot with the lap's cycle bit before the Link entry is published. */
  lemma PushIsSteps(s: State, body: int)
    requires Inv(s) && CanPush(s)
    ensures var steps := if s.ring.idx + 1 == SLOTS then [Produce(body), CloseLap] else [Produce(body)];
            AllEnabled(s, steps) && DriverPush(s, body) == Run(s, steps)
  {
    var s1 := Apply(s, Produce(body));
    if s.ring.idx + 1 == SLOTS {
      var two := [Produce(body), CloseLap];
      assert two[1..] == [CloseLap] && [CloseLap][1..] == [];
      assert AllEnabled(s1, [CloseLap]) && Run(s1, [CloseLap]) == Apply(s1, CloseLap);
    } else {
      assert [Produce(body)][1..] == [];
    }
  }

  lemma PushKeeps(s: State, body: int)
    requires Inv(s) && CanPush(s)
    ensures Inv(DriverPush(s, body)) && DriverPush(s, body).ring.idx < SLOTS
  {
    PushIsSteps(s, body);
    RunKeeps(s, if s.ring.idx + 1 == SLOTS then [Produce(body), CloseLap] else [Produce(body)]);
  }

  /** Histories of whole pushes and controller steps. */
  datatype Move = Push(body: int) | Controller(step: Step)

  predicate MoveEnabled(s: State, v: Move) {
    match v
    case Push(_) => CanPush(s)
    case Controller(step) => (step.Consume? || step.FollowLink?) && Enabled(s, step)
  }

  function Moved(s: State, v: Move): State
    requires MoveEnabled(s, v)
  {
    match v
    case Push(body) => DriverPush(s, body)
    case Controller(step) => Apply(s, step)
  }

  predicate AllMovesEnabled(s: State, moves: seq<Move>)
    decreases |moves|
  {
    moves == [] || (MoveEnabled(s, moves[0]) && AllMovesEnabled(Moved(s, moves[0]), moves[1..]))
  }

  function MoveAll(s: State, moves: seq<Move>): State
    requires AllMovesEnabled(s, moves)
    decreases |moves|
  {
    if moves == [] then s else MoveAll(Moved(s, moves[0]), moves[1..])
  }

  lemma {:induction false} MovesKeep(s: State, moves: seq<Move>)
    requires Inv(s) && s.ring.idx < SLOTS && AllMovesEnabled(s, moves)
    ensures Inv(MoveAll(s, moves)) && MoveAll(s, moves).ring.idx < SLOTS
    decreases |moves|
  {
    if moves != [] {
      match moves[0] {
        case Push(body) => PushKeeps(s, body);
        case Controller(step) => StepKeeps(s, step);
      }
      MovesKeep(Moved(s, moves[0]), moves[1..]);
    }
  }

  /** The bodies pushed in a history, in order. */
  function Bodies(moves: seq<Move>): seq<int> {
    if moves == [] then [] else (if moves[0].Push? then [moves[0].body] else []) + Bodies(moves[1..])
  }

  lemma {:induction false} PushedAreBodies(s: State, moves: seq<Move>)
    requires AllMovesEnabled(s, moves)
    ensures MoveAll(s, moves).pushed == s.pushed + Bodies(moves)
    decreases |moves|
  {
    if moves != [] { PushedAreBodies(Moved(s, moves[0]), moves[1..]); }
  }

  /** Over any history of driver pushes and controller steps the controller has taken the
      first bodies pushed, in order; it stops only when it has taken all; and the driver can
      push exactly while fewer than the bound are outstanding. */
  lemma DriverIsExactFifo(moves: seq<Move>)
    requires AllMovesEnabled(Start(), moves)
    ensures var s := MoveAll(Start(), moves);
            && s.got <= Bodies(moves)
            && (!Enabled(s, Consume) && !Enabled(s, FollowLink) ==> s.got == Bodies(moves))
            && (CanPush(s) <==> |Bodies(moves)| < |s.got| + OUTSTANDING)
  {
    StartInv();
    MovesKeep(Start(), moves);
    PushedAreBodies(Start(), moves);
    var s := MoveAll(Start(), moves);
    if s.deq < SLOTS { OwnsIffOutstanding(s); }
  }

  /** Slots filled as pushes would fill them, then stepped over, are pushes. */
  lemma FillThenAdvance(a: Ring, r: Ring, bodies: seq<int>)
    requires a.idx < SLOTS == |a.slots| && r == a.(slots := PushAll(a, bodies).slots)
    ensures Advanced(r, |bodies|) == PushAll(a, bodies)
  {
    AdvanceIsPush(a, r, bodies);
  }

  /** After following the Link entry the controller is not stuck on it again. */
  lemma LinkLeadsOn(s: State)
    requires Inv(s) && Enabled(s, FollowLink)
    ensures Enabled(Apply(s, FollowLink), Consume) <==> |s.got| < |s.pushed|
  {
    FollowLinkKeeps(s);
    OwnsIffOutstanding(Apply(s, FollowLink));
  }

  /** The bound is exact: one entry more, with the controller still before the Link
      entry, and closing the lap rewrites that entry under it. A whole lap is outstanding
      and nothing can move any more, neither the controller nor a producer within bounds. */
  lemma OneMoreStopsController(s: State, body: int)
    requires Inv(s) && s.deq == SLOTS && s.ring.idx < SLOTS && |s.pushed| == |s.got| + OUTSTANDING
    ensures var full := s.(ring := Write(s.ring, body), pushed := s.pushed + [body]);
            && Enabled(full, CloseLap)
            && var r := Apply(full, CloseLap);
            && |r.pushed| == |r.got| + SLOTS && forall step :: !Enabled(r, step)
  {
  }

  // ---- a run that gets there ----------------------------------------------------

  lemma {:induction false} OneMore(s: State, a: seq<Step>, step: Step)
    requires AllEnabled(s, a) && Enabled(Run(s, a), step)
    ensures AllEnabled(s, a + [step]) && Run(s, a + [step]) == Apply(Run(s, a), step)
    decreases |a|
  {
    var b := a + [step];
    if a == [] {
      assert b[1..] == [] && AllEnabled(Apply(s, step), b[1..]);
    } else {
      assert b[0] == a[0] && b[1..] == a[1..] + [step];
      OneMore(Apply(s, a[0]), a[1..], step);
    }
  }

  ghost predicate Leads(steps: seq<Step>, s: State) { AllEnabled(Start(), steps) && Run(Start(), steps) == s && Inv(s) }

  lemma Then(a: seq<Step>, s: State, step: Step) returns (b: seq<Step>, r: State)
    requires Leads(a, s) && Enabled(s, step)
    ensures r == Apply(s, step) && Leads(b, r)
  {
    OneMore(Start(), a, step);
    StepKeeps(s, step);
    b, r := a + [step], Apply(s, step);
  }

  /** `n` entries, each consumed at once. */
  lemma {:induction false} InStep(n: nat) returns (steps: seq<Step>, s: State)
    requires n <= SLOTS
    ensures Leads(steps, s) && s.lap == 0 == s.ctrlLap && s.ring.idx == n == s.deq
  {
    if n == 0 {
      StartInv();
      steps, s := [], Start();
    } else {
      var a, u := InStep(n - 1);
      var b, v := Then(a, u, Produce(0));
      OwnsIffOutstanding(v);
      steps, s := Then(b, v, Consume);
    }
  }

  /** `n` entries of the second lap, with the controller waiting before the Link entry. */
  lemma {:induction false} Behind(n: nat) returns (steps: seq<Step>, s: State)
    requires n <= OUTSTANDING
    ensures Leads(steps, s) && s.lap == 1 && s.ctrlLap == 0 && s.ring.idx == n && s.deq == SLOTS
  {
    if n == 0 {
      var a, u := InStep(SLOTS);
      steps, s := Then(a, u, CloseLap);
    } else {
      var a, u := Behind(n - 1);
      steps, s := Then(a, u, Produce(0));
    }
  }

  /** From the reset ring, within the bound, to the state in which one entry more stops
      everything. */
  lemma OneMoreIsReached() returns (steps: seq<Step>, s: State)
    ensures AllEnabled(Start(), steps) && s == Run(Start(), steps) && s.ring.idx < |s.ring.slots|
    ensures var full := s.(ring := Write(s.ring, 0), pushed := s.pushed + [0]);
            Enabled(full, CloseLap) && forall step :: !Enabled(Apply(full, CloseLap), step)
  {
    steps, s := Behind(OUTSTANDING);
    OneMoreStopsController(s, 0);
  }
}
