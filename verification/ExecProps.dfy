/** Reading the stack upward gives back what exec was given. */
module ExecProps {
  import opened Prelude
  import opened Words
  import opened ExecSpec

  // ---- strings ------------------------------------------------------------------

  predicate StrAt(m: seq<Byte>, p: nat, s: seq<Byte>) { p + |s| + 1 <= |m| && m[p..p + |s| + 1] == s + [0] }

  lemma {:induction false} ReadStrAt(m: seq<Byte>, p: nat, s: seq<Byte>)
    requires StrAt(m, p, s) && IsStr(s)
    ensures ReadStr(m, p) == s
    decreases |s|
  {
    var all := m[p..p + |s| + 1];
    if s == [] {
      assert m[p] == all[0];
    } else {
      assert m[p] == all[0] == s[0];
      assert m[p + 1..p + 1 + |s[1..]| + 1] == all[1..];
      ReadStrAt(m, p + 1, s[1..]);
    }
  }

  lemma StrKept(m: seq<Byte>, r: seq<Byte>, at: nat, p: nat, s: seq<Byte>)
    requires SameFrom(m, r, at) && at <= p && StrAt(m, p, s)
    ensures StrAt(r, p, s)
  {
    SameFromSlice(m, r, at, p, p + |s| + 1);
  }

  ghost predicate StrsAt(m: seq<Byte>, ptrs: seq<nat>, ss: seq<seq<Byte>>, lo: nat) {
    |ptrs| == |ss| && forall i {:trigger ptrs[i]} :: 0 <= i < |ss| ==> lo <= ptrs[i] && StrAt(m, ptrs[i], ss[i])
  }

  lemma StrsKept(m: seq<Byte>, r: seq<Byte>, at: nat, ptrs: seq<nat>, ss: seq<seq<Byte>>)
    requires SameFrom(m, r, at) && StrsAt(m, ptrs, ss, at)
    ensures StrsAt(r, ptrs, ss, at)
  {
    forall i | 0 <= i < |ss| ensures StrAt(r, ptrs[i], ss[i]) { StrKept(m, r, at, ptrs[i], ss[i]); }
  }

  lemma PutStrAt(x: Mem, s: seq<Byte>)
    requires x.sp <= |x.m| && PutStr(x, s).Some?
    ensures var y := PutStr(x, s).value; StrAt(y.m, y.sp, s) && SameFrom(x.m, y.m, x.sp)
  {
    PutAt(x.m, x.sp - (|s| + 1), s + [0]);
  }

  lemma SameFromTrans(a: seq<Byte>, b: seq<Byte>, c: seq<Byte>, lo: nat, hi: nat)
    requires SameFrom(a, b, hi) && SameFrom(b, c, lo) && lo <= hi
    ensures SameFrom(a, c, hi)
  {
    SameFromWeaken(b, c, lo, hi);
  }

  /** Every string is where its pointer says, above the new stack pointer, and nothing
      above the old one has changed. */
  lemma {:induction false} PutStrsAt(x: Mem, ss: seq<seq<Byte>>)
    requires x.sp <= |x.m| && PutStrs(x, ss).Some?
    ensures var r := PutStrs(x, ss).value;
            StrsAt(r.mem.m, r.ptrs, ss, r.mem.sp) && SameFrom(x.m, r.mem.m, x.sp)
    decreases |ss|
  {
    if ss != [] {
      PutStrsAt(x, ss[1..]);
      var rest := PutStrs(x, ss[1..]).value;
      PutStrAt(rest.mem, ss[0]);
      var y := PutStr(rest.mem, ss[0]).value;
      StrsKept(rest.mem.m, y.m, rest.mem.sp, rest.ptrs, ss[1..]);
      SameFromTrans(x.m, rest.mem.m, y.m, rest.mem.sp, x.sp);
      var r := PutStrs(x, ss).value;
      forall i | 0 <= i < |ss| ensures r.mem.sp <= r.ptrs[i] && StrAt(r.mem.m, r.ptrs[i], ss[i]) {
        if i > 0 { assert r.ptrs[i] == rest.ptrs[i - 1] && ss[i] == ss[1..][i - 1]; }
      }
    }
  }

  // ---- words --------------------------------------------------------------------

  lemma PushReads(x: Mem, v: nat)
    requires 8 <= x.sp <= |x.m| && IsWord(v)
    ensures var r := Push(x, v); ReadWord(r.m, r.sp) == v && SameFrom(x.m, r.m, x.sp)
  {
    PutAt(x.m, x.sp - 8, Le(v, WORD));
    WordRoundTrip(v);
  }

  ghost predicate AllWords(vs: seq<nat>) { forall i :: 0 <= i < |vs| ==> IsWord(vs[i]) }

  /** The words `vs` are in memory from `p` up. */
  ghost predicate WordsAt(m: seq<Byte>, p: nat, vs: seq<nat>) {
    p + 8 * |vs| <= |m| && forall k {:trigger vs[k]} :: 0 <= k < |vs| ==> ReadWord(m, p + 8 * k) == vs[k]
  }

  lemma PushWords(x: Mem, v: nat, vs: seq<nat>)
    requires 8 <= x.sp <= |x.m| && IsWord(v) && WordsAt(x.m, x.sp, vs)
    ensures var r := Push(x, v); WordsAt(r.m, r.sp, [v] + vs) && SameFrom(x.m, r.m, x.sp)
  {
    PushReads(x, v);
    var r := Push(x, v);
    var all := [v] + vs;
    forall k | 0 <= k < |all| ensures ReadWord(r.m, r.sp + 8 * k) == all[k] {
      if k > 0 {
        var p := x.sp + 8 * (k - 1);
        assert all[k] == vs[k - 1];
        SameFromSlice(x.m, r.m, x.sp, p, p + 8);
      }
    }
  }

  lemma {:induction false} PushAllReads(x: Mem, vs: seq<nat>)
    requires 8 * |vs| <= x.sp <= |x.m| && AllWords(vs)
    ensures var r := PushAll(x, vs); WordsAt(r.m, r.sp, vs) && SameFrom(x.m, r.m, x.sp)
    decreases |vs|
  {
    if vs != [] {
      PushAllReads(x, vs[1..]);
      var rest := PushAll(x, vs[1..]);
      PushWords(rest, vs[0], vs[1..]);
      assert vs == [vs[0]] + vs[1..];
      SameFromTrans(x.m, rest.m, PushAll(x, vs).m, rest.sp, x.sp);
    }
  }

  lemma WordsSub(m: seq<Byte>, p: nat, vs: seq<nat>, at: nat, n: nat)
    requires WordsAt(m, p, vs) && at + n <= |vs|
    ensures WordsAt(m, p + 8 * at, vs[at..at + n])
  {
    var sub := vs[at..at + n];
    forall k | 0 <= k < n ensures ReadWord(m, p + 8 * at + 8 * k) == sub[k] {
      assert sub[k] == vs[at + k];
      assert p + 8 * at + 8 * k == p + 8 * (at + k);
    }
  }

  lemma {:induction false} ReadVecAt(m: seq<Byte>, p: nat, vs: seq<nat>)
    requires WordsAt(m, p, vs + [0]) && forall i :: 0 <= i < |vs| ==> vs[i] != 0
    ensures ReadVec(m, p) == vs
    decreases |vs|
  {
    var all := vs + [0];
    assert ReadWord(m, p + 8 * 0) == all[0];
    if vs != [] {
      WordsSub(m, p, all, 1, |vs|);
      assert all[1..1 + |vs|] == vs[1..] + [0];
      ReadVecAt(m, p + 8, vs[1..]);
    }
  }

  /** What reading an auxiliary vector should give. */
  function Seen(aux: seq<Aux>): seq<AuxRead> {
    if aux == [] then [] else [AuxRead(aux[0].tag, aux[0].value)] + Seen(aux[1..])
  }

  lemma Assoc(a: seq<nat>, b: seq<nat>, c: seq<nat>)
    ensures a + b + c == a + (b + c)
  {
  }

  lemma AfterTwo(x: nat, y: nat, rest: seq<nat>)
    ensures ([x, y] + rest)[2..2 + |rest|] == rest
  {
  }

  lemma FlatTail(aux: seq<Aux>, end: seq<nat>)
    requires aux != []
    ensures (Flat(aux) + end)[2..2 + (|Flat(aux) + end| - 2)] == Flat(aux[1..]) + end
  {
    var rest := Flat(aux[1..]) + end;
    Assoc([aux[0].tag, aux[0].value], Flat(aux[1..]), end);
    AfterTwo(aux[0].tag, aux[0].value, rest);
  }

  lemma {:induction false} ReadAuxAt(m: seq<Byte>, p: nat, aux: seq<Aux>)
    requires WordsAt(m, p, Flat(aux) + [AT_NULL, 0]) && forall i :: 0 <= i < |aux| ==> aux[i].tag != AT_NULL
    ensures ReadAux(m, p) == Seen(aux)
    decreases |aux|
  {
    var all := Flat(aux) + [AT_NULL, 0];
    assert ReadWord(m, p + 8 * 0) == all[0];
    if aux != [] {
      assert ReadWord(m, p + 8 * 1) == all[1];
      WordsSub(m, p, all, 2, |all| - 2);
      FlatTail(aux, [AT_NULL, 0]);
      ReadAuxAt(m, p + 2 * 8, aux[1..]);
    }
  }

  // ---- the round trip -----------------------------------------------------------

  ghost predicate InfoOk(info: Info) {
    && IsWord(info.phdr) && IsWord(info.phent) && IsWord(info.phnum) && IsWord(info.entry)
    && (info.interp.Some? ==> IsWord(info.interp.value))
  }

  ghost predicate AuxOk(aux: seq<Aux>) {
    forall i {:trigger aux[i]} :: 0 <= i < |aux| ==> IsWord(aux[i].tag) && IsWord(aux[i].value) && aux[i].tag != AT_NULL
  }

  lemma AuxOfOk(info: Info, random: nat)
    requires InfoOk(info) && IsWord(random)
    ensures AuxOk(AuxOf(info, random))
  {
  }

  lemma {:induction false} FlatWords(aux: seq<Aux>)
    requires AuxOk(aux)
    ensures AllWords(Flat(aux))
  {
    if aux != [] {
      var rest := aux[1..];
      forall i | 0 <= i < |rest| ensures IsWord(rest[i].tag) && IsWord(rest[i].value) && rest[i].tag != AT_NULL {
        assert rest[i] == aux[i + 1];
      }
      FlatWords(rest);
    }
  }

  lemma Slices(h: nat, a: seq<nat>, b: seq<nat>, c: seq<nat>)
    ensures var v := [h] + a + b + c;
            && |v| == 1 + |a| + |b| + |c| && v[0] == h
            && v[1..1 + |a|] == a && v[1 + |a|..1 + |a| + |b|] == b && v[1 + |a| + |b|..] == c
  {
    var v := [h] + a + b + c;
    assert v == [h] + (a + (b + c));
    assert v[1 + |a|..] == b + c;
  }

  /** The pieces of the vector, where they lie. */
  lemma VectorParts(base: nat, args: seq<nat>, envs: seq<nat>, aux: seq<Aux>)
    ensures var v := Vector(base, args, envs, aux);
            && |v| == |args| + |envs| + 3 + 2 * |aux| + 2
            && v[0] == |args|
            && v[1..2 + |args|] == Addresses(base, args) + [0]
            && v[2 + |args|..3 + |args| + |envs|] == Addresses(base, envs) + [0]
            && v[3 + |args| + |envs|..] == Flat(aux) + [AT_NULL, 0]
  {
    Slices(|args|, Addresses(base, args) + [0], Addresses(base, envs) + [0], Flat(aux) + [AT_NULL, 0]);
  }

  lemma VectorLength(base: nat, args: seq<nat>, envs: seq<nat>, aux: seq<Aux>)
    ensures |Vector(base, args, envs, aux)| == |args| + |envs| + 5 + 2 * |aux|
  {
  }

  lemma VectorWords(base: nat, args: seq<nat>, envs: seq<nat>, aux: seq<Aux>, limit: nat)
    requires AuxOk(aux) && base + limit <= WORD_LIMIT && |args| <= MAX_STRINGS
    requires (forall i :: 0 <= i < |args| ==> args[i] < limit) && (forall i :: 0 <= i < |envs| ==> envs[i] < limit)
    ensures AllWords(Vector(base, args, envs, aux))
  {
    FlatWords(aux);
    var a, b, c := Addresses(base, args) + [0], Addresses(base, envs) + [0], Flat(aux) + [AT_NULL, 0];
    WordsJoin(Addresses(base, args), [0]);
    WordsJoin(Addresses(base, envs), [0]);
    WordsJoin(Flat(aux), [AT_NULL, 0]);
    WordsJoin([|args|], a);
    WordsJoin([|args|] + a, b);
    WordsJoin([|args|] + a + b, c);
  }

  lemma WordsJoin(a: seq<nat>, b: seq<nat>)
    requires AllWords(a) && AllWords(b)
    ensures AllWords(a + b)
  {
  }

  /** What a program finds from its stack pointer up. */
  ghost predicate Reads(m: seq<Byte>, sp: nat, base: nat, args: seq<nat>, envs: seq<nat>, aux: seq<Aux>) {
    && sp + 8 * (3 + |args| + |envs|) <= |m|
    && ReadWord(m, sp) == |args|
    && ReadVec(m, sp + 8) == Addresses(base, args)
    && ReadVec(m, sp + 8 * (2 + |args|)) == Addresses(base, envs)
    && ReadAux(m, sp + 8 * (3 + |args| + |envs|)) == Seen(aux)
  }

  lemma ArgsRead(m: seq<Byte>, sp: nat, base: nat, args: seq<nat>, envs: seq<nat>, aux: seq<Aux>)
    requires WordsAt(m, sp, Vector(base, args, envs, aux)) && 0 < base
    ensures sp + 8 * (2 + |args|) <= |m| && ReadWord(m, sp) == |args| && ReadVec(m, sp + 8) == Addresses(base, args)
  {
    var v := Vector(base, args, envs, aux);
    VectorParts(base, args, envs, aux);
    assert ReadWord(m, sp + 8 * 0) == v[0];
    WordsSub(m, sp, v, 1, |args| + 1);
    ReadVecAt(m, sp + 8, Addresses(base, args));
  }

  lemma EnvsRead(m: seq<Byte>, sp: nat, base: nat, args: seq<nat>, envs: seq<nat>, aux: seq<Aux>)
    requires WordsAt(m, sp, Vector(base, args, envs, aux)) && 0 < base
    ensures ReadVec(m, sp + 8 * (2 + |args|)) == Addresses(base, envs)
  {
    VectorParts(base, args, envs, aux);
    WordsSub(m, sp, Vector(base, args, envs, aux), 2 + |args|, |envs| + 1);
    ReadVecAt(m, sp + 8 * (2 + |args|), Addresses(base, envs));
  }

  lemma AuxIsRead(m: seq<Byte>, sp: nat, base: nat, args: seq<nat>, envs: seq<nat>, aux: seq<Aux>)
    requires WordsAt(m, sp, Vector(base, args, envs, aux)) && AuxOk(aux)
    ensures sp + 8 * (3 + |args| + |envs|) <= |m|
    ensures ReadAux(m, sp + 8 * (3 + |args| + |envs|)) == Seen(aux)
  {
    var v := Vector(base, args, envs, aux);
    VectorParts(base, args, envs, aux);
    var n := 3 + |args| + |envs|;
    WordsSub(m, sp, v, n, |v| - n);
    assert v[n..n + (|v| - n)] == v[n..];
    ReadAuxAt(m, sp + 8 * n, aux);
  }

  lemma VectorReads(m: seq<Byte>, sp: nat, base: nat, args: seq<nat>, envs: seq<nat>, aux: seq<Aux>)
    requires WordsAt(m, sp, Vector(base, args, envs, aux)) && AuxOk(aux) && 0 < base
    ensures Reads(m, sp, base, args, envs, aux)
  {
    ArgsRead(m, sp, base, args, envs, aux);
    EnvsRead(m, sp, base, args, envs, aux);
    AuxIsRead(m, sp, base, args, envs, aux);
  }

  // ---- the round trip -----------------------------------------------------------

  ghost predicate StringsRead(m: seq<Byte>, ptrs: seq<nat>, ss: seq<seq<Byte>>, lo: nat) {
    && |ptrs| == |ss|
    && forall i {:trigger ptrs[i]} :: 0 <= i < |ss| ==> lo <= ptrs[i] < |m| && ReadStr(m, ptrs[i]) == ss[i]
  }

  lemma StrsRead(m: seq<Byte>, ptrs: seq<nat>, ss: seq<seq<Byte>>, lo: nat, low: nat)
    requires StrsAt(m, ptrs, ss, lo) && low <= lo && forall i :: 0 <= i < |ss| ==> IsStr(ss[i])
    ensures StringsRead(m, ptrs, ss, low)
  {
    forall i | 0 <= i < |ss| ensures low <= ptrs[i] < |m| && ReadStr(m, ptrs[i]) == ss[i] {
      ReadStrAt(m, ptrs[i], ss[i]);
    }
  }

  ghost predicate AllStr(ss: seq<seq<Byte>>) { forall i :: 0 <= i < |ss| ==> IsStr(ss[i]) }

  /** The state before the vectors are pushed: random bytes, then both sets of strings. */
  ghost predicate Laid(m: seq<Byte>, sp: nat, args: seq<nat>, envs: seq<nat>, argv: seq<seq<Byte>>,
                       envp: seq<seq<Byte>>, rnd: seq<Byte>) {
    && sp + 16 <= |m| && StrsAt(m, args, argv, sp) && StrsAt(m, envs, envp, sp)
    && m[|m| - 16..] == rnd
  }

  lemma StrsLower(m: seq<Byte>, ptrs: seq<nat>, ss: seq<seq<Byte>>, lo: nat, low: nat)
    requires StrsAt(m, ptrs, ss, lo) && low <= lo
    ensures StrsAt(m, ptrs, ss, low)
  {
  }

  lemma LaidOut(m: seq<Byte>, argv: seq<seq<Byte>>, envp: seq<seq<Byte>>, rnd: seq<Byte>, e: Placed, a: Placed)
    requires |rnd| == 16 <= |m| && PutStrs(Top(m, rnd), envp) == Some(e) && PutStrs(e.mem, argv) == Some(a)
    ensures |a.mem.m| == |m| && Laid(a.mem.m, a.mem.sp, a.ptrs, e.ptrs, argv, envp, rnd)
  {
    var top := Top(m, rnd);
    PutAt(m, |m| - 16, rnd);
    PutStrsAt(top, envp);
    PutStrsAt(e.mem, argv);
    StrsKept(e.mem.m, a.mem.m, e.mem.sp, e.ptrs, envp);
    StrsLower(a.mem.m, e.ptrs, envp, e.mem.sp, a.mem.sp);
    SameFromTrans(top.m, e.mem.m, a.mem.m, e.mem.sp, |m| - 16);
    assert top.m[|m| - 16..] == rnd;
  }

  /** The stages of a successful build. */
  lemma BuildParts(m: seq<Byte>, base: nat, argv: seq<seq<Byte>>, envp: seq<seq<Byte>>, aux: seq<Aux>, rnd: seq<Byte>)
    returns (e: Placed, a: Placed, sp: nat)
    requires |rnd| == 16 <= |m| && |aux| <= 13 && Build(m, base, argv, envp, aux, rnd).Ready?
    ensures PutStrs(Top(m, rnd), envp) == Some(e) && PutStrs(e.mem, argv) == Some(a)
    ensures |argv| <= MAX_STRINGS && sp == Align8(a.mem.sp) <= a.mem.sp <= |a.mem.m|
    ensures |Vector(base, a.ptrs, e.ptrs, aux)| == |argv| + |envp| + 5 + 2 * |aux|
            && 8 * |Vector(base, a.ptrs, e.ptrs, aux)| <= sp
    ensures Build(m, base, argv, envp, aux, rnd)
         == Ready(PushAll(Mem(a.mem.m, sp), Vector(base, a.ptrs, e.ptrs, aux)), a.ptrs, e.ptrs, |m| - 16)
  {
    e := PutStrs(Top(m, rnd), envp).value;
    a := PutStrs(e.mem, argv).value;
    sp := Align8(a.mem.sp);
    VectorLength(base, a.ptrs, e.ptrs, aux);
  }

  /** Memory read upward from the stack pointer is argc, the argument pointers, NULL, the
      environment pointers, NULL and the auxiliary pairs up to AT_NULL; every pointer
      leads to its string, all strings lie above the vectors, and the sixteen random
      bytes are in place. */
  ghost predicate ReadsBack(o: Outcome, size: nat, base: nat, argv: seq<seq<Byte>>, envp: seq<seq<Byte>>, aux: seq<Aux>,
                            rnd: seq<Byte>)
    requires o.Ready?
  {
    && |o.mem.m| == size && |o.args| == |argv| && |o.envs| == |envp|
    && Reads(o.mem.m, o.mem.sp, base, o.args, o.envs, aux)
    && var end := o.mem.sp + 8 * (|argv| + |envp| + 5 + 2 * |aux|);
    && StringsRead(o.mem.m, o.args, argv, end) && StringsRead(o.mem.m, o.envs, envp, end)
    && o.random + 16 == size && o.mem.m[o.random..] == rnd
  }

  lemma StringsSurvive(m: seq<Byte>, r: seq<Byte>, at: nat, sp: nat, ptrs: seq<nat>, ss: seq<seq<Byte>>)
    requires SameFrom(m, r, sp) && sp <= at && StrsAt(m, ptrs, ss, at) && at <= |m| && AllStr(ss)
    ensures StringsRead(r, ptrs, ss, sp)
  {
    SameFromWeaken(m, r, sp, at);
    StrsKept(m, r, at, ptrs, ss);
    StrsRead(r, ptrs, ss, at, sp);
  }

  lemma PtrsInside(m: seq<Byte>, ptrs: seq<nat>, ss: seq<seq<Byte>>, lo: nat)
    requires StrsAt(m, ptrs, ss, lo)
    ensures forall i :: 0 <= i < |ptrs| ==> ptrs[i] < |m|
  {
    forall i | 0 <= i < |ptrs| ensures ptrs[i] < |m| { assert StrAt(m, ptrs[i], ss[i]); }
  }

  /** Pushing the vectors below keeps the strings; everything reads back. */
  lemma VectorsPushed(m: seq<Byte>, at: nat, sp: nat, base: nat, args: seq<nat>, envs: seq<nat>,
                      argv: seq<seq<Byte>>, envp: seq<seq<Byte>>, aux: seq<Aux>, rnd: seq<Byte>)
    requires |rnd| == 16 && Laid(m, at, args, envs, argv, envp, rnd) && sp <= at && AuxOk(aux) && AllStr(argv)
             && AllStr(envp)
    requires 0 < base && base + |m| <= WORD_LIMIT && |args| <= MAX_STRINGS
    requires 8 * |Vector(base, args, envs, aux)| <= sp
    ensures ReadsBack(Ready(PushAll(Mem(m, sp), Vector(base, args, envs, aux)), args, envs, |m| - 16), |m|, base, argv,
                      envp, aux, rnd)
  {
    PtrsInside(m, args, argv, at);
    PtrsInside(m, envs, envp, at);
    var v := Vector(base, args, envs, aux);
    VectorWords(base, args, envs, aux, |m|);
    VectorLength(base, args, envs, aux);
    PushAllReads(Mem(m, sp), v);
    var r := PushAll(Mem(m, sp), v);
    VectorReads(r.m, r.sp, base, args, envs, aux);
    StringsSurvive(m, r.m, at, sp, args, argv);
    StringsSurvive(m, r.m, at, sp, envs, envp);
    SameFromSlice(m, r.m, sp, |m| - 16, |m|);
    PushedReadsBack(r, args, envs, |m|, base, argv, envp, aux, rnd, sp);
  }

  lemma PushedReadsBack(r: Mem, args: seq<nat>, envs: seq<nat>, size: nat, base: nat, argv: seq<seq<Byte>>,
                        envp: seq<seq<Byte>>, aux: seq<Aux>, rnd: seq<Byte>, end: nat)
    requires |r.m| == size >= 16 && |args| == |argv| && |envs| == |envp|
    requires Reads(r.m, r.sp, base, args, envs, aux) && end == r.sp + 8 * (|argv| + |envp| + 5 + 2 * |aux|)
    requires StringsRead(r.m, args, argv, end) && StringsRead(r.m, envs, envp, end) && r.m[size - 16..] == rnd
    ensures ReadsBack(Ready(r, args, envs, size - 16), size, base, argv, envp, aux, rnd)
  {
  }

  /** Every successful exec reads back. */
  lemma ExecRoundTrip(m: seq<Byte>, base: nat, argv: seq<seq<Byte>>, envp: seq<seq<Byte>>, aux: seq<Aux>,
                      rnd: seq<Byte>)
    requires |rnd| == 16 <= |m| && 0 < base && base + |m| <= WORD_LIMIT && AuxOk(aux) && AllStr(argv) && AllStr(envp)
    requires |aux| <= 13 && Build(m, base, argv, envp, aux, rnd).Ready?
    ensures ReadsBack(Build(m, base, argv, envp, aux, rnd), |m|, base, argv, envp, aux, rnd)
  {
    var e, a, sp := BuildParts(m, base, argv, envp, aux, rnd);
    StagesReadBack(Build(m, base, argv, envp, aux, rnd), m, base, argv, envp, rnd, e, a, aux, sp);
  }

  lemma StagesReadBack(o: Outcome, m: seq<Byte>, base: nat, argv: seq<seq<Byte>>, envp: seq<seq<Byte>>, rnd: seq<Byte>,
                       e: Placed, a: Placed, aux: seq<Aux>, sp: nat)
    requires |rnd| == 16 <= |m| && PutStrs(Top(m, rnd), envp) == Some(e) && PutStrs(e.mem, argv) == Some(a)
    requires 0 < base && base + |m| <= WORD_LIMIT && AuxOk(aux) && AllStr(argv) && AllStr(envp) && |argv| <= MAX_STRINGS
    requires sp <= a.mem.sp && 8 * |Vector(base, a.ptrs, e.ptrs, aux)| <= sp
    requires o == Ready(PushAll(Mem(a.mem.m, sp), Vector(base, a.ptrs, e.ptrs, aux)), a.ptrs, e.ptrs, |m| - 16)
    ensures ReadsBack(o, |m|, base, argv, envp, aux, rnd)
  {
    LaidOut(m, argv, envp, rnd, e, a);
    VectorsPushed(a.mem.m, a.mem.sp, sp, base, a.ptrs, e.ptrs, argv, envp, aux, rnd);
  }

  // ---- success and alignment, from the arguments alone ---------------------------

  function Total(ss: seq<seq<Byte>>): nat { if ss == [] then 0 else |ss[0]| + 1 + Total(ss[1..]) }

  lemma {:induction false} PutStrsSize(x: Mem, ss: seq<seq<Byte>>)
    requires x.sp <= |x.m|
    ensures PutStrs(x, ss).Some? <==> Total(ss) <= x.sp
    ensures PutStrs(x, ss).Some? ==> PutStrs(x, ss).value.mem.sp == x.sp - Total(ss)
    decreases |ss|
  {
    if ss != [] { PutStrsSize(x, ss[1..]); }
  }

  /** Where the strings end, rounded down to a word. */
  function StringsEnd(room: nat, argv: seq<seq<Byte>>, envp: seq<seq<Byte>>): int {
    var p := room - 16 - Total(envp) - Total(argv);
    if p < 0 then -1 else Align8(p)
  }

  /** Exec succeeds exactly when the counts are within bounds and the strings leave room
      for the vectors; too many strings is E2BIG, whatever their size. */
  lemma SucceedsIff(m: seq<Byte>, base: nat, argv: seq<seq<Byte>>, envp: seq<seq<Byte>>, aux: seq<Aux>, rnd: seq<Byte>)
    requires |rnd| == 16 <= |m| && |aux| <= 13
    ensures Build(m, base, argv, envp, aux, rnd).Ready? <==>
              && |argv| <= MAX_STRINGS && |envp| <= MAX_STRINGS
              && StringsEnd(|m|, argv, envp) >= (|envp| + |argv| + 32) * 8
    ensures Build(m, base, argv, envp, aux, rnd) == Failed(-7) <==> |argv| > MAX_STRINGS || |envp| > MAX_STRINGS
    ensures Build(m, base, argv, envp, aux, rnd) == Failed(-1) <==>
              && |argv| <= MAX_STRINGS && |envp| <= MAX_STRINGS
              && StringsEnd(|m|, argv, envp) < (|envp| + |argv| + 32) * 8
  {
    PutStrsSize(Top(m, rnd), envp);
    if PutStrs(Top(m, rnd), envp).Some? { PutStrsSize(PutStrs(Top(m, rnd), envp).value.mem, argv); }
  }

  lemma Parity(base: nat, k: nat, n: nat, x: nat)
    requires base % 16 == 0 && n + 5 + 2 * x <= k
    ensures var sp := 8 * k - 8 * (n + 5 + 2 * x);
            (base + sp) % 8 == 0 && ((base + sp) % 16 == 0 <==> (k + n) % 2 == 1)
  {
  }

  lemma SpOfBuild(m: seq<Byte>, base: nat, argv: seq<seq<Byte>>, envp: seq<seq<Byte>>, aux: seq<Aux>, rnd: seq<Byte>)
    returns (at: nat, x: nat)
    requires |rnd| == 16 <= |m| && |aux| <= 13 && Build(m, base, argv, envp, aux, rnd).Ready?
    ensures at == |m| - 16 - Total(envp) - Total(argv)
    ensures 8 * (|argv| + |envp| + 5 + 2 * x) <= Align8(at)
    ensures Build(m, base, argv, envp, aux, rnd).mem.sp == Align8(at) - 8 * (|argv| + |envp| + 5 + 2 * x)
  {
    PutStrsSize(Top(m, rnd), envp);
    PutStrsSize(PutStrs(Top(m, rnd), envp).value.mem, argv);
    var e, a, sp := BuildParts(m, base, argv, envp, aux, rnd);
    at, x := a.mem.sp, |aux|;
  }

  lemma WhereItEnds(m: seq<Byte>, base: nat, argv: seq<seq<Byte>>, envp: seq<seq<Byte>>, aux: seq<Aux>, rnd: seq<Byte>)
    returns (k: nat, x: nat)
    requires |rnd| == 16 <= |m| && |aux| <= 13 && Build(m, base, argv, envp, aux, rnd).Ready?
    ensures StringsEnd(|m|, argv, envp) == 8 * k && |argv| + |envp| + 5 + 2 * x <= k
    ensures Build(m, base, argv, envp, aux, rnd).mem.sp == 8 * k - 8 * (|argv| + |envp| + 5 + 2 * x)
  {
    var at;
    at, x := SpOfBuild(m, base, argv, envp, aux, rnd);
    k := at / 8;
  }

  /** The stack pointer is a multiple of 8. The psABI asks for 16: that holds exactly
      when the words below the strings and the strings are odd in number together,
      which the code does not arrange. */
  lemma AlignedIff(m: seq<Byte>, base: nat, argv: seq<seq<Byte>>, envp: seq<seq<Byte>>, aux: seq<Aux>, rnd: seq<Byte>)
    requires |rnd| == 16 <= |m| && |aux| <= 13 && Build(m, base, argv, envp, aux, rnd).Ready? && base % 16 == 0
    ensures var sp := Build(m, base, argv, envp, aux, rnd).mem.sp;
            && (base + sp) % 8 == 0
            && ((base + sp) % 16 == 0 <==> (StringsEnd(|m|, argv, envp) / 8 + |argv| + |envp|) % 2 == 1)
  {
    var k, x := WhereItEnds(m, base, argv, envp, aux, rnd);
    Parity(base, k, |argv| + |envp|, x);
  }
}
