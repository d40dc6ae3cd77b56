/** What a program finds in its own auxiliary vector, and how its stack is aligned. */
module ExecImage {
  import opened Prelude
  import opened Words
  import opened ExecSpec
  import opened ExecProps

  /** The first value read under a tag, as a C library looks it up. */
  function Lookup(aux: seq<AuxRead>, tag: int): Option<int> {
    if aux == [] then None else if aux[0].tag == tag then Some(aux[0].value) else Lookup(aux[1..], tag)
  }

  function LookupAux(aux: seq<Aux>, tag: int): Option<int> {
    if aux == [] then None else if aux[0].tag == tag then Some(aux[0].value) else LookupAux(aux[1..], tag)
  }

  lemma {:induction false} SeenLookup(aux: seq<Aux>, tag: int)
    ensures Lookup(Seen(aux), tag) == LookupAux(aux, tag)
  {
    if aux != [] {
      SeenLookup(aux[1..], tag);
      assert Seen(aux)[1..] == Seen(aux[1..]);
    }
  }

  lemma {:induction false} LookupJoin(a: seq<Aux>, b: seq<Aux>, tag: int)
    ensures LookupAux(a + b, tag) == if LookupAux(a, tag).Some? then LookupAux(a, tag) else LookupAux(b, tag)
  {
    if a == [] {
      assert a + b == b;
    } else {
      LookupJoin(a[1..], b, tag);
      assert (a + b)[1..] == a[1..] + b;
    }
  }

  /** What each tag should give: the program's own numbers, the interpreter's base if there
      is one, an unprivileged caller's zeros, and the address of the random bytes. */
  function Promised(info: Info, random: nat, tag: int): Option<int> {
    if tag == AT_PHDR then Some(info.phdr)
    else if tag == AT_PHENT then Some(info.phent)
    else if tag == AT_PHNUM then Some(info.phnum)
    else if tag == AT_PAGESZ then Some(PAGE_SIZE)
    else if tag == AT_ENTRY then Some(info.entry)
    else if tag == AT_BASE then (match info.interp case None => None case Some(b) => Some(b))
    else if tag in {AT_UID, AT_EUID, AT_GID, AT_EGID, AT_SECURE} then Some(0)
    else if tag == AT_RANDOM then Some(random)
    else None
  }

  lemma LookupOne(x: Aux, rest: seq<Aux>, tag: int)
    ensures LookupAux([x] + rest, tag) == if x.tag == tag then Some(x.value) else LookupAux(rest, tag)
  {
    assert ([x] + rest)[1..] == rest;
  }

  lemma LookupFive(a: Aux, b: Aux, c: Aux, d: Aux, e: Aux, tag: int)
    ensures LookupAux([a, b, c, d, e], tag)
         == if a.tag == tag then Some(a.value) else if b.tag == tag then Some(b.value)
            else if c.tag == tag then Some(c.value)
            else if d.tag == tag then Some(d.value) else if e.tag == tag then Some(e.value) else None
  {
    assert [a, b, c, d, e] == [a] + ([b] + ([c] + ([d] + ([e] + []))));
    LookupOne(e, [], tag);
    LookupOne(d, [e] + [], tag);
    LookupOne(c, [d] + ([e] + []), tag);
    LookupOne(b, [c] + ([d] + ([e] + [])), tag);
    LookupOne(a, [b] + ([c] + ([d] + ([e] + []))), tag);
  }

  lemma VectorHas(info: Info, random: nat, tag: int)
    ensures LookupAux(AuxOf(info, random), tag) == Promised(info, random, tag)
  {
    var first := [Aux(AT_PHDR, info.phdr), Aux(AT_PHENT, info.phent), Aux(AT_PHNUM, info.phnum),
                  Aux(AT_PAGESZ, PAGE_SIZE), Aux(AT_ENTRY, info.entry)];
    var mid := if info.interp.Some? then [Aux(AT_BASE, info.interp.value)] else [];
    var ids := [Aux(AT_UID, 0), Aux(AT_EUID, 0), Aux(AT_GID, 0), Aux(AT_EGID, 0), Aux(AT_SECURE, 0)];
    assert AuxOf(info, random) == first + mid + (ids + [Aux(AT_RANDOM, random)]);
    LookupFive(first[0], first[1], first[2], first[3], first[4], tag);
    LookupFive(ids[0], ids[1], ids[2], ids[3], ids[4], tag);
    LookupJoin(ids, [Aux(AT_RANDOM, random)], tag);
    LookupJoin(first, mid, tag);
    LookupJoin(first + mid, ids + [Aux(AT_RANDOM, random)], tag);
  }

  /** Where the auxiliary vector starts in a finished image. */
  function AuxStart(o: Outcome): nat
    requires o.Ready?
  {
    o.mem.sp + 8 * (3 + |o.args| + |o.envs|)
  }

  lemma LookupFrom(m: seq<Byte>, sp: nat, base: nat, args: seq<nat>, envs: seq<nat>, aux: seq<Aux>, tag: int)
    requires Reads(m, sp, base, args, envs, aux)
    ensures Lookup(ReadAux(m, sp + 8 * (3 + |args| + |envs|)), tag) == LookupAux(aux, tag)
  {
    SeenLookup(aux, tag);
  }

  /** All a program reads of an image: argc, arguments, environment and auxiliary vector, the
      strings above the vectors, the random bytes on top, and `want` under `tag`. */
  ghost predicate Found(o: Outcome, size: nat, base: nat, argv: seq<seq<Byte>>, envp: seq<seq<Byte>>, aux: seq<Aux>,
                        tag: int, want: Option<int>, rnd: seq<Byte>)
    requires o.Ready?
  {
    && ReadsBack(o, size, base, argv, envp, aux, rnd)
    && Lookup(ReadAux(o.mem.m, AuxStart(o)), tag) == want
  }

  lemma BuiltReads(m: seq<Byte>, base: nat, argv: seq<seq<Byte>>, envp: seq<seq<Byte>>, aux: seq<Aux>, rnd: seq<Byte>,
                   tag: int, want: Option<int>, o: Outcome)
    requires |rnd| == 16 <= |m| && 0 < base && base + |m| <= WORD_LIMIT && AuxOk(aux) && AllStr(argv) && AllStr(envp)
    requires |aux| <= 13 && o == Build(m, base, argv, envp, aux, rnd) && o.Ready? && LookupAux(aux, tag) == want
    ensures Found(o, |m|, base, argv, envp, aux, tag, want, rnd)
  {
    ExecRoundTrip(m, base, argv, envp, aux, rnd);
    LookupFrom(o.mem.m, o.mem.sp, base, o.args, o.envs, aux, tag);
  }

  lemma AuxFacts(info: Info, random: nat, tag: int, aux: seq<Aux>, want: Option<int>)
    requires InfoOk(info) && IsWord(random) && aux == AuxOf(info, random) && want == Promised(info, random, tag)
    ensures AuxOk(aux) && |aux| <= 13 && LookupAux(aux, tag) == want
  {
    AuxOfOk(info, random);
    VectorHas(info, random, tag);
  }

  /** A started program reads back its arguments and environment, finds under every tag
      what was promised, and at the address under AT_RANDOM the sixteen bytes. */
  lemma ImageReadsBack(m: seq<Byte>, base: nat, info: Info, argv: seq<seq<Byte>>, envp: seq<seq<Byte>>,
                       tag: int, want: Option<int>, rnd: seq<Byte>, o: Outcome)
    requires 16 <= |m| && 0 < base && base + |m| <= WORD_LIMIT && InfoOk(info) && AllStr(argv) && AllStr(envp)
    requires want == Promised(info, base + (|m| - 16), tag) && |rnd| == 16
    requires o == Image(m, base, info, argv, envp, rnd) && o.Ready?
    ensures Found(o, |m|, base, argv, envp, AuxOf(info, base + (|m| - 16)), tag, want, rnd)
  {
    var aux := AuxOf(info, base + (|m| - 16));
    AuxFacts(info, base + (|m| - 16), tag, aux, want);
    BuiltReads(m, base, argv, envp, aux, rnd, tag, want, o);
  }

  // ---- alignment ----------------------------------------------------------------

  lemma ShEnds(n: nat)
    ensures StringsEnd(PAGE_SIZE * (n + 1), [[115, 104]], []) == 8 * (512 * n + 509)
  {
    var argv: seq<seq<Byte>> := [[115, 104]];
    assert argv[1..] == [];
    var p := PAGE_SIZE * (n + 1) - 19;
    assert p == 8 * (512 * n + 509) + 5;
  }

  lemma EightOff(x: nat)
    requires x % 8 == 0 && x % 16 != 0
    ensures x % 16 == 8
  {
  }

  lemma EvenTogether(n: nat, end: int)
    requires end == 8 * (512 * n + 509)
    ensures (end / 8 + 1 + 0) % 2 == 0
  {
    assert end / 8 == 512 * n + 509;
    assert end / 8 + 1 == 2 * (256 * n + 255);
  }

  lemma ShReady(m: seq<Byte>, base: nat, n: nat, argv: seq<seq<Byte>>, aux: seq<Aux>, rnd: seq<Byte>)
    requires |rnd| == 16 <= |m| && |aux| <= 13 && |argv| == 1 && StringsEnd(|m|, argv, []) == 8 * (512 * n + 509)
    ensures Build(m, base, argv, [], aux, rnd).Ready?
  {
    SucceedsIff(m, base, argv, [], aux, rnd);
  }

  lemma OffFrom(m: seq<Byte>, base: nat, argv: seq<seq<Byte>>, aux: seq<Aux>, rnd: seq<Byte>, end: int)
    requires |rnd| == 16 <= |m| && |aux| <= 13 && Build(m, base, argv, [], aux, rnd).Ready? && base % 16 == 0
    requires |argv| == 1 && end == StringsEnd(|m|, argv, []) && (end / 8 + 1 + 0) % 2 == 0
    ensures (base + Build(m, base, argv, [], aux, rnd).mem.sp) % 16 == 8
  {
    AlignedIff(m, base, argv, [], aux, rnd);
    EightOff(base + Build(m, base, argv, [], aux, rnd).mem.sp);
  }

  lemma ShWith(m: seq<Byte>, base: nat, n: nat, argv: seq<seq<Byte>>, aux: seq<Aux>, rnd: seq<Byte>)
    requires |rnd| == 16 <= |m| && base % 16 == 0 && |aux| <= 13
    requires |argv| == 1 && StringsEnd(|m|, argv, []) == 8 * (512 * n + 509)
    ensures var o := Build(m, base, argv, [], aux, rnd); o.Ready? && (base + o.mem.sp) % 16 == 8
  {
    ShReady(m, base, n, argv, aux, rnd);
    EvenTogether(n, StringsEnd(|m|, argv, []));
    OffFrom(m, base, argv, aux, rnd, StringsEnd(|m|, argv, []));
  }

  /** The argument list "sh" with no environment starts with a stack pointer that is not a
      multiple of 16, on a stack of any number of pages. */
  lemma ShIsMisaligned(m: seq<Byte>, base: nat, info: Info, n: nat, rnd: seq<Byte>)
    requires |m| == PAGE_SIZE * (n + 1) && base % 16 == 0 && |rnd| == 16
    ensures var o := Image(m, base, info, [[115, 104]], [], rnd); o.Ready? && (base + o.mem.sp) % 16 == 8
  {
    ShEnds(n);
    ShWith(m, base, n, [[115, 104]], AuxOf(info, base + (|m| - 16)), rnd);
  }
}
