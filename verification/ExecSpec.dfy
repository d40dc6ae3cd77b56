/** The first stack of a program: strings at the top, then the vectors. Positions are
    offsets into the mapped stack, which starts at the address `base`. */
module ExecSpec {
  import opened Prelude
  import opened Words

  const MAX_STRINGS: nat := 2048

  /** A C string: no zero byte inside. */
  predicate IsStr(s: seq<Byte>) { forall i :: 0 <= i < |s| ==> s[i] != 0 }

  datatype Info = Info(phdr: nat, phent: nat, phnum: nat, entry: nat, interp: Option<nat>)

  datatype Mem = Mem(m: seq<Byte>, sp: nat)

  // ---- strings ------------------------------------------------------------------

  function PutStr(x: Mem, s: seq<Byte>): (r: Option<Mem>)
    requires x.sp <= |x.m|
    ensures r.Some? ==> |r.value.m| == |x.m| && r.value.sp <= x.sp
  {
    var n := |s| + 1;
    if x.sp < n then None else Some(Mem(Put(x.m, x.sp - n, s + [0]), x.sp - n))
  }

  datatype Placed = Placed(mem: Mem, ptrs: seq<nat>)

  /** The strings from last to first, going down; `ptrs` are their positions. */
  function PutStrs(x: Mem, ss: seq<seq<Byte>>): (r: Option<Placed>)
    requires x.sp <= |x.m|
    ensures r.Some? ==> |r.value.mem.m| == |x.m| && r.value.mem.sp <= x.sp && |r.value.ptrs| == |ss|
    decreases |ss|
  {
    if ss == [] then Some(Placed(x, []))
    else
      match PutStrs(x, ss[1..])
      case None => None
      case Some(rest) =>
        match PutStr(rest.mem, ss[0])
        case None => None
        case Some(y) => Some(Placed(y, [y.sp] + rest.ptrs))
  }

  // ---- words --------------------------------------------------------------------

  function Push(x: Mem, v: nat): (r: Mem)
    requires 8 <= x.sp <= |x.m|
    ensures |r.m| == |x.m| && r.sp == x.sp - 8
  {
    Mem(Put(x.m, x.sp - 8, Le(v, WORD)), x.sp - 8)
  }

  /** Push the words so that they read upward in order. */
  function PushAll(x: Mem, vs: seq<nat>): (r: Mem)
    requires 8 * |vs| <= x.sp <= |x.m|
    ensures |r.m| == |x.m| && r.sp == x.sp - 8 * |vs|
    decreases |vs|
  {
    if vs == [] then x else Push(PushAll(x, vs[1..]), vs[0])
  }

  // ---- the whole image ----------------------------------------------------------

  const AT_NULL: nat := 0
  const AT_PHDR: nat := 3
  const AT_PHENT: nat := 4
  const AT_PHNUM: nat := 5
  const AT_PAGESZ: nat := 6
  const AT_BASE: nat := 7
  const AT_ENTRY: nat := 9
  const AT_UID: nat := 11
  const AT_EUID: nat := 12
  const AT_GID: nat := 13
  const AT_EGID: nat := 14
  const AT_SECURE: nat := 23
  const AT_RANDOM: nat := 25

  datatype Aux = Aux(tag: nat, value: nat)

  /** The auxiliary vector without its terminator. */
  function AuxOf(info: Info, random: nat): (aux: seq<Aux>)
    ensures |aux| == if info.interp.Some? then 12 else 11
  {
    [Aux(AT_PHDR, info.phdr), Aux(AT_PHENT, info.phent), Aux(AT_PHNUM, info.phnum), Aux(AT_PAGESZ, PAGE_SIZE),
     Aux(AT_ENTRY, info.entry)]
    + (if info.interp.Some? then [Aux(AT_BASE, info.interp.value)] else [])
    + [Aux(AT_UID, 0), Aux(AT_EUID, 0), Aux(AT_GID, 0), Aux(AT_EGID, 0), Aux(AT_SECURE, 0), Aux(AT_RANDOM, random)]
  }

  function Flat(aux: seq<Aux>): (ws: seq<nat>)
    ensures |ws| == 2 * |aux|
  {
    if aux == [] then [] else [aux[0].tag, aux[0].value] + Flat(aux[1..])
  }

  function Addresses(base: nat, ptrs: seq<nat>): seq<nat> { seq(|ptrs|, i requires 0 <= i < |ptrs| => base + ptrs[i]) }

  /** Everything from the stack pointer up: argc, argv, NULL, envp, NULL, auxv. */
  function Vector(base: nat, args: seq<nat>, envs: seq<nat>, aux: seq<Aux>): seq<nat> {
    [|args|] + (Addresses(base, args) + [0]) + (Addresses(base, envs) + [0]) + (Flat(aux) + [AT_NULL, 0])
  }

  const RANDOM_LO: nat := 0x0123456789abcdef
  const RANDOM_HI: nat := 0xfedcba9876543210

  function RandomBytes(): (r: seq<Byte>)
    ensures |r| == 16
  {
    Le(RANDOM_LO, WORD) + Le(RANDOM_HI, WORD)
  }

  function Align8(p: nat): nat { p - p % 8 }

  datatype Outcome = Failed(code: int) | Ready(mem: Mem, args: seq<nat>, envs: seq<nat>, random: nat)

  /** Memory with the sixteen random bytes at the top. */
  function Top(m: seq<Byte>, rnd: seq<Byte>): (x: Mem)
    requires |rnd| == 16 <= |m|
    ensures |x.m| == |m| && x.sp == |m| - 16
  {
    Mem(Put(m, |m| - 16, rnd), |m| - 16)
  }

  /** The image for arguments, environment and auxiliary vector; the space check allows
      for 32 words besides the pointers. */
  function Build(m: seq<Byte>, base: nat, argv: seq<seq<Byte>>, envp: seq<seq<Byte>>, aux: seq<Aux>,
                 rnd: seq<Byte>): Outcome
    requires |rnd| == 16 <= |m| && |aux| <= 13
  {
    if |argv| > MAX_STRINGS || |envp| > MAX_STRINGS then Failed(-7)
    else
      match PutStrs(Top(m, rnd), envp)
      case None => Failed(-1)
      case Some(e) =>
        match PutStrs(e.mem, argv)
        case None => Failed(-1)
        case Some(a) =>
          var sp := Align8(a.mem.sp);
          if sp < (|envp| + |argv| + 32) * 8 then Failed(-1)
          else
            var vs := Vector(base, a.ptrs, e.ptrs, aux);
            Ready(PushAll(Mem(a.mem.m, sp), vs), a.ptrs, e.ptrs, |m| - 16)
  }

  /** The image of a program: its own auxiliary vector, with AT_RANDOM at the bytes on top. */
  function Image(m: seq<Byte>, base: nat, info: Info, argv: seq<seq<Byte>>, envp: seq<seq<Byte>>,
                 rnd: seq<Byte>): Outcome
    requires |rnd| == 16 <= |m|
  {
    Build(m, base, argv, envp, AuxOf(info, base + (|m| - 16)), rnd)
  }

  // ---- what a program reads -----------------------------------------------------

  function ReadStr(m: seq<Byte>, p: nat): seq<Byte>
    decreases |m| - p
  {
    if p >= |m| || m[p] == 0 then [] else [m[p]] + ReadStr(m, p + 1)
  }

  /** Words up to the terminating zero. */
  function ReadVec(m: seq<Byte>, p: nat): seq<int>
    decreases |m| - p
  {
    if p + 8 > |m| || ReadWord(m, p) == 0 then [] else [ReadWord(m, p)] + ReadVec(m, p + 8)
  }

  datatype AuxRead = AuxRead(tag: int, value: int)

  function ReadAux(m: seq<Byte>, p: nat): seq<AuxRead>
    decreases |m| - p
  {
    if p + 2 * 8 > |m| || ReadWord(m, p) == AT_NULL then []
    else [AuxRead(ReadWord(m, p), ReadWord(m, p + 8))] + ReadAux(m, p + 2 * 8)
  }
}
