/** A file in memory: the bytes of the pages it has, and how many of them are file. */
module RamfsSpec {
  import opened Prelude
  import opened Words

  datatype File = File(data: seq<Byte>, size: nat)

  ghost predicate Wf(f: File) { f.size <= |f.data| }

  function Zeros(n: nat): (z: seq<Byte>)
    ensures |z| == n && forall i :: 0 <= i < n ==> z[i] == 0
  {
    seq(n, _ => 0)
  }

  /** More room, all zero. */
  function Grown(f: File, room: nat): File { f.(data := f.data + Zeros(room)) }

  function Max(a: nat, b: nat): nat { if a < b then b else a }

  /** A write into a file that has the room. */
  function Written(f: File, off: nat, src: seq<Byte>): File
    requires off + |src| <= |f.data|
  {
    File(Put(f.data, off, src), Max(f.size, off + |src|))
  }

  function ReadAt(f: File, off: nat, count: nat): seq<Byte>
    requires Wf(f)
  {
    if off >= f.size then [] else f.data[off..off + Min(count, f.size - off)]
  }

  // ---- one contiguous buffer ----------------------------------------------------

  /** The same write on one contiguous buffer: a gap reads as zero. */
  function FlatWrite(b: seq<Byte>, off: nat, src: seq<Byte>): seq<Byte> {
    var room := if |b| < off + |src| then b + Zeros(off + |src| - |b|) else b;
    Put(room, off, src)
  }

  function FlatRead(b: seq<Byte>, off: nat, count: nat): seq<Byte> {
    if off >= |b| then [] else b[off..off + Min(count, |b| - off)]
  }

  function Contents(f: File): seq<Byte>
    requires Wf(f)
  {
    f.data[..f.size]
  }

  /** Bytes past the end are zero: true of every file that never shrank. */
  ghost predicate ZeroTail(f: File) { Wf(f) && forall i :: f.size <= i < |f.data| ==> f.data[i] == 0 }

  lemma GrownIsSame(f: File, room: nat)
    requires Wf(f)
    ensures Wf(Grown(f, room)) && Contents(Grown(f, room)) == Contents(f)
    ensures ZeroTail(f) ==> ZeroTail(Grown(f, room))
  {
  }

  lemma WriteIsFlat(f: File, off: nat, src: seq<Byte>)
    requires ZeroTail(f) && off + |src| <= |f.data|
    ensures ZeroTail(Written(f, off, src))
    ensures Contents(Written(f, off, src)) == FlatWrite(Contents(f), off, src)
  {
    var r := Written(f, off, src);
    var flat := FlatWrite(Contents(f), off, src);
    forall i | 0 <= i < r.size ensures r.data[i] == flat[i] {
    }
  }

  lemma ReadIsFlat(f: File, off: nat, count: nat)
    requires Wf(f)
    ensures ReadAt(f, off, count) == FlatRead(Contents(f), off, count)
  {
  }

  /** Truncation moves the end and touches no byte. */
  function Truncated(f: File, length: nat): File
    requires length <= |f.data|
  {
    f.(size := length)
  }

  /** Cutting and growing again shows the old bytes, unless they were zero: the tail is
      not cleared. */
  lemma RegrowShowsOldBytes(f: File, cut: nat)
    requires ZeroTail(f) && cut <= f.size
    ensures Contents(Truncated(Truncated(f, cut), f.size)) == Contents(f)
    ensures ZeroTail(Truncated(f, cut)) <==> forall i :: cut <= i < f.size ==> f.data[i] == 0
  {
    if forall i :: cut <= i < f.size ==> f.data[i] == 0 {
    } else {
      var i :| cut <= i < f.size && f.data[i] != 0;
      assert Truncated(f, cut).data[i] != 0;
    }
  }

  // ---- histories ----------------------------------------------------------------

  /** What a call does: the room it got, and whether that was enough. */
  datatype Op =
    | OpWrite(off: nat, src: seq<Byte>, room: nat)
    | OpAppend(src: seq<Byte>, room: nat)
    | OpTruncate(length: nat, room: nat)

  function Start(f: File, op: Op): nat { if op.OpAppend? then f.size else if op.OpWrite? then op.off else op.length }
  function Bytes(op: Op): seq<Byte> { if op.OpTruncate? then [] else op.src }
  predicate Fits(f: File, op: Op) { Start(f, op) + |Bytes(op)| <= |f.data| + op.room }

  /** Growth may fail part way; the room it got stays, the call does nothing else. */
  function Step(f: File, op: Op): File {
    var g := Grown(f, op.room);
    if !Fits(f, op) then g else if op.OpTruncate? then Truncated(g, op.length) else Written(g, Start(f, op), op.src)
  }

  function FlatTruncate(b: seq<Byte>, length: nat): seq<Byte> {
    if length <= |b| then b[..length] else b + Zeros(length - |b|)
  }

  function FlatStep(f: File, b: seq<Byte>, op: Op): seq<Byte> {
    if !Fits(f, op) then b
    else if op.OpTruncate? then FlatTruncate(b, op.length) else FlatWrite(b, Start(f, op), op.src)
  }

  /** The bytes past the end that the call brings back into the file are zero. */
  ghost predicate Clean(f: File, op: Op) {
    Fits(f, op) ==> forall i :: f.size <= i < Start(f, op) && i < |f.data| ==> f.data[i] == 0
  }

  lemma StepWf(f: File, op: Op)
    requires Wf(f)
    ensures Wf(Step(f, op)) && |Step(f, op).data| == |f.data| + op.room
  {
  }

  lemma CleanIsFlat(f: File, op: Op)
    requires Wf(f) && Clean(f, op)
    ensures Wf(Step(f, op)) && Contents(Step(f, op)) == FlatStep(f, Contents(f), op)
  {
    StepWf(f, op);
    var r, flat := Contents(Step(f, op)), FlatStep(f, Contents(f), op);
    assert |r| == |flat|;
    forall i | 0 <= i < |r| ensures r[i] == flat[i] {
    }
  }

  lemma UncleanIsNot(f: File, op: Op, i: nat)
    requires Wf(f) && Fits(f, op) && f.size <= i < Start(f, op) && i < |f.data| && f.data[i] != 0
    ensures Wf(Step(f, op)) && Contents(Step(f, op)) != FlatStep(f, Contents(f), op)
  {
    StepWf(f, op);
    assert Contents(Step(f, op))[i] == f.data[i] && FlatStep(f, Contents(f), op)[i] == 0;
  }

  /** One call does to the pages what it would to one buffer if and only if it brings back
      no byte but zero. */
  lemma StepIsFlatIff(f: File, op: Op)
    requires Wf(f)
    ensures Wf(Step(f, op))
    ensures Contents(Step(f, op)) == FlatStep(f, Contents(f), op) <==> Clean(f, op)
  {
    if Clean(f, op) {
      CleanIsFlat(f, op);
    } else {
      var i :| f.size <= i < Start(f, op) && i < |f.data| && f.data[i] != 0;
      UncleanIsNot(f, op, i);
    }
  }

  function Run(f: File, ops: seq<Op>): (r: File)
    ensures Wf(f) ==> Wf(r)
    decreases |ops|
  {
    if ops == [] then f else Run(Step(f, ops[0]), ops[1..])
  }

  function FlatRun(f: File, b: seq<Byte>, ops: seq<Op>): seq<Byte>
    decreases |ops|
  {
    if ops == [] then b else FlatRun(Step(f, ops[0]), FlatStep(f, b, ops[0]), ops[1..])
  }

  lemma RunOfOne(f: File, b: seq<Byte>, x: Op)
    ensures Run(f, [x]) == Step(f, x) && FlatRun(f, b, [x]) == FlatStep(f, b, x)
  {
    var rest := [x][1..];
    assert rest == [];
    assert Run(f, [x]) == Run(Step(f, x), rest);
    assert FlatRun(f, b, [x]) == FlatRun(Step(f, x), FlatStep(f, b, x), rest);
  }

  ghost predicate AllClean(f: File, ops: seq<Op>)
    decreases |ops|
  {
    ops == [] || (Clean(f, ops[0]) && AllClean(Step(f, ops[0]), ops[1..]))
  }

  /** After the first `n` calls the file reads as one buffer would. */
  ghost predicate FlatAfter(f: File, ops: seq<Op>, n: nat)
    requires Wf(f) && n <= |ops|
  {
    Contents(Run(f, ops[..n])) == FlatRun(f, Contents(f), ops[..n])
  }

  lemma FlatAfterNext(f: File, ops: seq<Op>, n: nat)
    requires Wf(f) && 0 < n <= |ops| && Clean(f, ops[0])
    ensures Wf(Step(f, ops[0])) && (FlatAfter(f, ops, n) <==> FlatAfter(Step(f, ops[0]), ops[1..], n - 1))
  {
    CleanIsFlat(f, ops[0]);
    assert ops[..n][0] == ops[0] && ops[..n][1..] == ops[1..][..n - 1];
  }

  lemma FlatAfterFirst(f: File, ops: seq<Op>)
    requires Wf(f) && ops != []
    ensures FlatAfter(f, ops, 1) <==> Clean(f, ops[0])
  {
    StepIsFlatIff(f, ops[0]);
    RunOfOne(f, Contents(f), ops[0]);
    assert ops[..1] == [ops[0]];
  }

  lemma {:induction false} CleanRunIsFlat(f: File, ops: seq<Op>, n: nat)
    requires Wf(f) && n <= |ops| && AllClean(f, ops)
    ensures FlatAfter(f, ops, n)
    decreases n
  {
    if n > 0 {
      FlatAfterNext(f, ops, n);
      CleanRunIsFlat(Step(f, ops[0]), ops[1..], n - 1);
    }
  }

  lemma {:induction false} FlatRunIsClean(f: File, ops: seq<Op>)
    requires Wf(f) && forall n: nat :: n <= |ops| ==> FlatAfter(f, ops, n)
    ensures AllClean(f, ops)
    decreases |ops|
  {
    if ops != [] {
      FlatAfterFirst(f, ops);
      StepWf(f, ops[0]);
      forall n: nat | n <= |ops[1..]| ensures FlatAfter(Step(f, ops[0]), ops[1..], n) { FlatAfterNext(f, ops, n + 1); }
      FlatRunIsClean(Step(f, ops[0]), ops[1..]);
    }
  }

  /** Over any history of writes, appends, truncations and failed growth, the paged file
      reads as one contiguous buffer at every moment, gaps as zeros, if and only if no call
      brings back a byte that is not zero. */
  lemma RunIsFlatIff(f: File, ops: seq<Op>)
    requires Wf(f)
    ensures (forall n: nat :: n <= |ops| ==> FlatAfter(f, ops, n)) <==> AllClean(f, ops)
  {
    if AllClean(f, ops) {
      forall n: nat | n <= |ops| ensures FlatAfter(f, ops, n) { CleanRunIsFlat(f, ops, n); }
    } else if forall n: nat :: n <= |ops| ==> FlatAfter(f, ops, n) {
      FlatRunIsClean(f, ops);
    }
  }

  /** A cut of zeros, or no cut. */
  ghost predicate Harmless(f: File, op: Op) {
    op.OpTruncate? ==> forall i :: op.length <= i < f.size && i < |f.data| ==> f.data[i] == 0
  }

  ghost predicate AllHarmless(f: File, ops: seq<Op>)
    decreases |ops|
  {
    ops == [] || (Harmless(f, ops[0]) && AllHarmless(Step(f, ops[0]), ops[1..]))
  }

  /** A file that never loses a byte but zero to a cut keeps a zero tail, so it reads as one
      buffer. */
  lemma {:induction false} RunIsFlat(f: File, ops: seq<Op>, off: nat, count: nat)
    requires ZeroTail(f) && AllHarmless(f, ops)
    ensures AllClean(f, ops) && ZeroTail(Run(f, ops))
    ensures ReadAt(Run(f, ops), off, count) == FlatRead(FlatRun(f, Contents(f), ops), off, count)
    decreases |ops|
  {
    ReadIsFlat(Run(f, ops), off, count);
    if ops != [] {
      StepKeepsTail(f, ops[0]);
      CleanIsFlat(f, ops[0]);
      RunIsFlat(Step(f, ops[0]), ops[1..], off, count);
    }
  }

  lemma StepKeepsTail(f: File, op: Op)
    requires ZeroTail(f) && Harmless(f, op)
    ensures ZeroTail(Step(f, op)) && Clean(f, op)
  {
    StepWf(f, op);
  }

  /** A byte written, cut away and brought back by growing the file: it reads as what it was,
      where one buffer would read zero. */
  lemma RegrownByteIsOld(b: Byte)
    requires b != 0
    ensures var f, ops := File([], 0), [OpWrite(0, [b], 4096), OpTruncate(0, 0), OpTruncate(1, 0)];
            Contents(Run(f, ops)) == [b] && FlatRun(f, [], ops) == [0]
  {
    var f := File([], 0);
    var f1 := Step(f, OpWrite(0, [b], 4096));
    var f2 := Step(f1, OpTruncate(0, 0));
    var f3 := Step(f2, OpTruncate(1, 0));
    assert f1.data[0] == b && f1.size == 1;
    assert f3.data[..1] == [b];
    RunOfThree(f, OpWrite(0, [b], 4096), OpTruncate(0, 0), OpTruncate(1, 0));
    assert FlatTruncate([], 1) == [0];
  }

  lemma RunOfThree(f: File, x: Op, y: Op, z: Op)
    ensures var f1, f2 := Step(f, x), Step(Step(f, x), y);
            && Run(f, [x, y, z]) == Step(f2, z)
            && FlatRun(f, [], [x, y, z]) == FlatStep(f2, FlatStep(f1, FlatStep(f, [], x), y), z)
  {
    var f1, f2 := Step(f, x), Step(Step(f, x), y);
    var b1 := FlatStep(f, [], x);
    var b2 := FlatStep(f1, b1, y);
    RunOfOne(f2, b2, z);
    assert [x, y, z][1..] == [y, z] && [y, z][1..] == [z];
    assert Run(f1, [y, z]) == Run(f2, [z]) && FlatRun(f1, b1, [y, z]) == FlatRun(f2, b2, [z]);
  }
}
