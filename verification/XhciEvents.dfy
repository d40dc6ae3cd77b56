/** The event ring of section 4.9.4 of the xHCI specification 1.2 and the stash that
    holds completions until somebody asks for them. */
module XhciEvents {
  import opened Prelude
  import opened Rings

  const EVT_TRBS: nat := 256
  const STASH_CAP: nat := 16

  /** An event: its type, slot, endpoint and transfer pointer, and the other bits. */
  datatype Event = Event(kind: nat, slot: nat, ep: nat, trb: nat, rest: int)

  const TRANSFER: nat := 32
  const COMMAND: nat := 33

  /** What somebody waits for; 0 stands for any. */
  datatype Want = Want(kind: nat, slot: nat, ep: nat, trb: nat)

  function Align16(x: nat): nat { x - x % 16 }

  predicate Matches(e: Event, w: Want) {
    && e.kind == w.kind
    && (w.kind == TRANSFER ==>
          && (w.slot != 0 ==> e.slot == w.slot)
          && (w.ep != 0 ==> e.ep == w.ep)
          && (w.trb != 0 ==> Align16(e.trb) == Align16(w.trb)))
  }

  /** Only completions have anybody waiting for them. */
  predicate IsCompletion(e: Event) { e.kind == TRANSFER || e.kind == COMMAND }

  // ---- the stash as a sequence --------------------------------------------------

  /** A full stash gives up its oldest entry. */
  function Stashed(st: seq<Event>, e: Event): seq<Event> {
    if !IsCompletion(e) then st else if |st| >= STASH_CAP then st[1..] + [e] else st + [e]
  }

  function Victim(st: seq<Event>, e: Event): seq<Event> {
    if IsCompletion(e) && |st| >= STASH_CAP then [st[0]] else []
  }

  /** The oldest match, from position `i` on. */
  function FirstMatch(st: seq<Event>, w: Want, i: nat): (r: Option<nat>)
    requires i <= |st|
    ensures r.Some? ==>
              i <= r.value < |st| && Matches(st[r.value], w) && forall j :: i <= j < r.value ==> !Matches(st[j], w)
    ensures r.None? ==> forall j :: i <= j < |st| ==> !Matches(st[j], w)
    decreases |st| - i
  {
    if i == |st| then None else if Matches(st[i], w) then Some(i) else FirstMatch(st, w, i + 1)
  }

  /** The fields a waiter may rely on: the type always, and of a transfer whichever of slot,
      endpoint and entry it named; the entry up to its low four bits. */
  lemma MatchFields(e: Event, w: Want)
    ensures Matches(e, w) ==> e.kind == w.kind
    ensures Matches(e, w) && w.kind == TRANSFER && w.slot != 0 ==> e.slot == w.slot
    ensures Matches(e, w) && w.kind == TRANSFER && w.ep != 0 ==> e.ep == w.ep
    ensures Matches(e, w) && w.kind == TRANSFER && w.trb != 0 ==> e.trb / 16 == w.trb / 16
    ensures e.kind == w.kind && e.slot == w.slot && e.ep == w.ep && e.trb == w.trb ==> Matches(e, w)
    ensures e.kind == w.kind && w.slot == 0 && w.ep == 0 && w.trb == 0 ==> Matches(e, w)
    ensures e.kind == w.kind && w.kind != TRANSFER ==> Matches(e, w)
  {
    var a, b := e.trb, w.trb;
    assert a == 16 * (a / 16) + a % 16 && b == 16 * (b / 16) + b % 16;
  }

  /** The stash keeps the newest: after a completion it is the end of what it was with the
      completion behind it, as long as fits; other events leave it alone. */
  lemma StashKeepsNewest(st: seq<Event>, e: Event)
    requires |st| <= STASH_CAP
    ensures var all := st + (if e.kind == TRANSFER || e.kind == COMMAND then [e] else []);
            && Stashed(st, e) == all[|all| - |Stashed(st, e)|..]
            && |Stashed(st, e)| == Min(|all|, STASH_CAP)
            && Victim(st, e) == all[..|all| - |Stashed(st, e)|]
  {
  }

  function Removed(st: seq<Event>, k: nat): seq<Event>
    requires k < |st|
  {
    st[..k] + st[k + 1..]
  }

  /** While the gap at `k` is being closed: the events up to `i` have moved down. */
  function Shifted(st: seq<Event>, k: nat, i: nat): (r: seq<Event>)
    requires k <= i < |st|
    ensures |r| == |st|
  {
    st[..k] + st[k + 1..i + 1] + st[i..]
  }

  lemma ShiftedStart(st: seq<Event>, k: nat)
    requires k < |st|
    ensures Shifted(st, k, k) == st
  {
  }

  lemma ShiftedNext(st: seq<Event>, k: nat, i: nat)
    requires k <= i && i + 1 < |st|
    ensures Shifted(st, k, i)[i + 1] == st[i + 1]
    ensures Shifted(st, k, i)[i := st[i + 1]] == Shifted(st, k, i + 1)
  {
  }

  lemma ShiftedEnd(st: seq<Event>, k: nat)
    requires k < |st|
    ensures Shifted(st, k, |st| - 1)[..|st| - 1] == Removed(st, k)
  {
  }

  // ---- the stash in memory ------------------------------------------------------

  class Stash {
    const slots: array<Event>
    var head: nat
    var count: nat
    var dropped: nat

    ghost predicate Valid()
      reads this, slots
    {
      slots.Length == STASH_CAP && head < STASH_CAP && count <= STASH_CAP
    }

    /** The stashed events, oldest first. */
    ghost function Contents(): seq<Event>
      requires Valid()
      reads this, slots
    {
      Window(slots[..], head, count)
    }

    constructor ()
      ensures Valid() && Contents() == [] && dropped == 0 && fresh(slots)
    {
      slots := new Event[STASH_CAP](_ => Event(0, 0, 0, 0, 0));
      head, count, dropped := 0, 0, 0;
    }

    method DropOldest()
      requires Valid() && count > 0
      modifies this
      ensures Valid() && Contents() == old(Contents())[1..] && dropped == old(dropped) + 1 && count == old(count) - 1
    {
      WindowHead(slots[..], head, count);
      WrapIsMod(head + 1, STASH_CAP);
      head := (head + 1) % STASH_CAP;
      count := count - 1;
      dropped := dropped + 1;
    }

    method Append(e: Event)
      requires Valid() && count < STASH_CAP
      modifies this`count, slots
      ensures Valid() && Contents() == old(Contents()) + [e]
    {
      var idx := (head + count) % STASH_CAP;
      WrapIsMod(head + count, STASH_CAP);
      WindowAppend(slots[..], head, count, e);
      ghost var was := slots[..];
      slots[idx] := e;
      assert slots[..] == was[idx := e];
      count := count + 1;
    }

    method Push(e: Event)
      requires Valid()
      modifies this, slots
      ensures Valid() && Contents() == Stashed(old(Contents()), e)
      ensures dropped == old(dropped) + |Victim(old(Contents()), e)|
    {
      if e.kind != TRANSFER && e.kind != COMMAND { return; }
      if count >= STASH_CAP { DropOldest(); }
      Append(e);
    }

    method At(i: nat) returns (e: Event)
      requires Valid() && i < count
      ensures e == Contents()[i]
    {
      WrapIsMod(head + i, STASH_CAP);
      e := slots[(head + i) % STASH_CAP];
    }

    method Set(i: nat, e: Event)
      requires Valid() && i < count
      modifies slots
      ensures Valid() && Contents() == old(Contents())[i := e]
    {
      WrapIsMod(head + i, STASH_CAP);
      WindowUpdate(slots[..], head, count, i, e);
      var idx := (head + i) % STASH_CAP;
      ghost var was := slots[..];
      slots[idx] := e;
      assert slots[..] == was[idx := e];
    }

    method MoveDown(ghost was: seq<Event>, ghost k: nat, i: nat)
      requires Valid() && count == |was| && k <= i && i + 1 < |was| && Contents() == Shifted(was, k, i)
      modifies slots
      ensures Valid() && Contents() == Shifted(was, k, i + 1)
    {
      ShiftedNext(was, k, i);
      var next := At(i + 1);
      Set(i, next);
    }

    /** Close the gap at `k` by moving the later events down. */
    method CloseGap(k: nat)
      requires Valid() && k < count
      modifies this`count, slots
      ensures Valid() && Contents() == Removed(old(Contents()), k)
    {
      ghost var was := Contents();
      ShiftedStart(was, k);
      var i := k;
      while i + 1 < count
        invariant k <= i < count == |was| && Valid() && Contents() == Shifted(was, k, i)
      {
        MoveDown(was, k, i);
        i := i + 1;
      }
      DropLast();
      ShiftedEnd(was, k);
    }

    method DropLast()
      requires Valid() && count > 0
      modifies this`count
      ensures Valid() && Contents() == old(Contents())[..old(count) - 1]
    {
      WindowTrim(slots[..], head, count);
      count := count - 1;
    }

    /** Take the oldest match; the others keep their order. */
    method Take(w: Want) returns (found: Option<Event>)
      requires Valid()
      modifies this`count, slots
      ensures Valid()
      ensures var st := old(Contents());
              match FirstMatch(st, w, 0)
              case None => found == None && Contents() == st
              case Some(k) => found == Some(st[k]) && Contents() == Removed(st, k)
    {
      ghost var st := Contents();
      var i := 0;
      while i < count
        invariant i <= count && Valid() && Contents() == st && count == |st|
        invariant FirstMatch(st, w, 0) == FirstMatch(st, w, i)
      {
        var e := At(i);
        if Matches(e, w) {
          CloseGap(i);
          return Some(e);
        }
        i := i + 1;
      }
      found := None;
    }
  }
}
