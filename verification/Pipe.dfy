/** The pipe's byte ring and its wait queues as they are in memory. */
module Pipe {
  import opened Prelude
  import opened PipeSpec
  import opened Rings

  lemma Shift(done: seq<Byte>, x: Byte, before: seq<Byte>, after: seq<Byte>)
    requires before == [x] + after
    ensures done + before == (done + [x]) + after
  {
  }

  class Ring {
    const buffer: array<Byte>
    var readPos: nat
    var writePos: nat
    var count: nat

    ghost predicate Valid()
      reads this, buffer
    {
      && buffer.Length == PIPE_BUF_SIZE
      && readPos < PIPE_BUF_SIZE && count <= PIPE_BUF_SIZE
      && writePos == Wrap(readPos + count, PIPE_BUF_SIZE)
    }

    /** The buffered bytes, oldest first. */
    ghost function Contents(): seq<Byte>
      requires Valid()
      reads this, buffer
    {
      Window(buffer[..], readPos, count)
    }

    constructor ()
      ensures Valid() && Contents() == [] && fresh(buffer)
    {
      buffer := new Byte[PIPE_BUF_SIZE];
      readPos, writePos, count := 0, 0, 0;
    }

    method PutByte(x: Byte)
      requires Valid() && count < PIPE_BUF_SIZE
      modifies this, buffer
      ensures Valid() && Contents() == old(Contents()) + [x]
    {
      WindowAppend(buffer[..], readPos, count, x);
      ghost var was := buffer[..];
      buffer[writePos] := x;
      assert buffer[..] == was[writePos := x];
      writePos := (writePos + 1) % PIPE_BUF_SIZE;
      count := count + 1;
    }

    method GetByte() returns (x: Byte)
      requires Valid() && count > 0
      modifies this
      ensures Valid() && old(Contents()) == [x] + Contents() && count == old(count) - 1
    {
      WindowHead(buffer[..], readPos, count);
      x := buffer[readPos];
      readPos := (readPos + 1) % PIPE_BUF_SIZE;
      count := count - 1;
    }

    /** Take in as much of `data` as there is room for. */
    method Put(data: seq<Byte>) returns (n: nat)
      requires Valid()
      modifies this, buffer
      ensures Valid() && n == Fits(old(Contents()), data)
      ensures Contents() == old(Contents()) + data[..n]
    {
      n := 0;
      while n < |data| && count < PIPE_BUF_SIZE
        invariant n <= |data| && Valid()
        invariant Contents() == old(Contents()) + data[..n]
      {
        PutByte(data[n]);
        n := n + 1;
        assert data[..n] == data[..n - 1] + [data[n - 1]];
      }
    }

    /** Hand out the oldest `want` bytes, or all when there are fewer. */
    method Get(want: nat) returns (dest: seq<Byte>)
      requires Valid()
      modifies this
      ensures Valid() && |dest| == Min(want, |old(Contents())|)
      ensures old(Contents()) == dest + Contents()
    {
      var n := if want > count then count else want;
      dest := [];
      while |dest| < n
        invariant |dest| <= n && Valid() && n - |dest| <= count
        invariant old(Contents()) == dest + Contents()
        decreases n - |dest|
      {
        ghost var before := Contents();
        var x := GetByte();
        ghost var after := Contents();
        Shift(dest, x, before, after);
        dest := dest + [x];
      }
    }
  }

  // ---- wait queues --------------------------------------------------------------

  const WAITQ_MAX := 4

  /** Four slots for waiting tasks; 0 marks a free one. */
  class Waitq {
    const waiters: array<nat>

    ghost predicate Valid()
      reads this, waiters
    {
      && waiters.Length == WAITQ_MAX
      && forall i, j :: 0 <= i < j < WAITQ_MAX && waiters[i] == waiters[j] ==> waiters[i] == 0
    }

    ghost function Members(): set<nat>
      reads this, waiters
    {
      set i | 0 <= i < waiters.Length && waiters[i] != 0 :: waiters[i]
    }

    ghost predicate Full()
      reads this, waiters
    {
      forall i :: 0 <= i < waiters.Length ==> waiters[i] != 0
    }

    constructor ()
      ensures Valid() && Members() == {} && fresh(waiters)
    {
      waiters := new nat[WAITQ_MAX](_ => 0);
    }

    /** `t` is queued afterwards unless the four slots are held by others. */
    method Add(t: nat) returns (ok: bool)
      requires Valid() && t != 0
      modifies waiters
      ensures Valid()
      ensures ok <==> t in old(Members()) || !old(Full())
      ensures Members() == if ok then old(Members()) + {t} else old(Members())
    {
      var free := -1;
      var i := 0;
      while i < WAITQ_MAX
        invariant 0 <= i <= WAITQ_MAX
        invariant forall j :: 0 <= j < i ==> waiters[j] != t
        invariant free == -1 ==> forall j :: 0 <= j < i ==> waiters[j] != 0
        invariant free != -1 ==> 0 <= free < i && waiters[free] == 0
      {
        if waiters[i] == t { return true; }
        if waiters[i] == 0 && free < 0 { free := i; }
        i := i + 1;
      }
      if free < 0 { return false; }
      waiters[free] := t;
      assert waiters[free] in Members();
      forall x | x in old(Members()) ensures x in Members() {
        var j :| 0 <= j < WAITQ_MAX && old(waiters[j]) == x && x != 0;
        assert waiters[j] == x;
      }
      ok := true;
    }

    method Remove(t: nat)
      requires Valid() && t != 0
      modifies waiters
      ensures Valid() && Members() == old(Members()) - {t}
    {
      var i := 0;
      while i < WAITQ_MAX
        invariant 0 <= i <= WAITQ_MAX
        invariant forall j :: 0 <= j < WAITQ_MAX ==> waiters[j] == if j < i && old(waiters[j]) == t then 0
                  else old(waiters[j])
      {
        if waiters[i] == t { waiters[i] := 0; }
        i := i + 1;
      }
      forall x | x in old(Members()) && x != t ensures x in Members() {
        var j :| 0 <= j < WAITQ_MAX && old(waiters[j]) == x && x != 0;
        assert waiters[j] == x;
      }
    }

    /** Empty the queue into a list; nobody is left out. */
    method TakeAll() returns (out: seq<nat>)
      requires Valid()
      modifies waiters
      ensures Valid() && Members() == {}
      ensures |out| <= WAITQ_MAX && forall x :: x in out <==> x in old(Members())
    {
      out := [];
      var i := 0;
      while i < WAITQ_MAX
        invariant 0 <= i <= WAITQ_MAX && |out| <= i
        invariant forall j :: 0 <= j < WAITQ_MAX ==> waiters[j] == if j < i then 0 else old(waiters[j])
        invariant forall j :: 0 <= j < i && old(waiters[j]) != 0 ==> old(waiters[j]) in out
        invariant forall x :: x in out ==> x in old(Members())
      {
        if waiters[i] != 0 {
          assert old(waiters[i]) in old(Members());
          out := out + [waiters[i]];
          waiters[i] := 0;
        }
        i := i + 1;
      }
    }
  }
}
