/** Building the first stack of a program in its pages. */
module Exec {
  import opened Prelude
  import opened Words
  import opened Pages
  import opened ExecSpec
  import EP = ExecProps

  lemma {:induction false} PushAppend(x: Mem, a: seq<nat>, b: seq<nat>)
    requires 8 * (|a| + |b|) <= x.sp <= |x.m|
    ensures PushAll(x, a + b) == PushAll(PushAll(x, b), a)
    decreases |a|
  {
    if a == [] {
      assert a + b == b;
    } else {
      PushAppend(x, a[1..], b);
      assert (a + b)[1..] == a[1..] + b;
    }
  }

  lemma PushOne(x: Mem, v: nat)
    requires 8 <= x.sp <= |x.m|
    ensures PushAll(x, [v]) == Push(x, v)
  {
    assert [v][1..] == [];
    assert PushAll(x, []) == x;
  }

  class UserStack {
    const base: nat
    const pages: seq<array<Byte>>
    /** The bytes of the stack, lowest address first. */
    ghost var data: seq<Byte>
    /** The string or stack pointer, as an offset from `base`. */
    var sp: nat

    ghost predicate Valid()
      reads this, pages
    {
      && |data| == PAGE_SIZE * |pages| && sp <= |data|
      && (forall p, q :: 0 <= p < q < |pages| ==> pages[p] != pages[q])
      && (forall p {:trigger PageOk(p)} :: 0 <= p < |pages| ==> PageOk(p))
    }

    ghost predicate PageOk(p: nat)
      requires p < |pages| && |data| == PAGE_SIZE * |pages|
      reads this, pages
    {
      pages[p].Length == PAGE_SIZE && pages[p][..] == data[PAGE_SIZE * p..PAGE_SIZE * p + PAGE_SIZE]
    }

    ghost function Abs(): Mem
      reads this
    {
      Mem(data, sp)
    }

    method SetSp(n: nat)
      requires Valid() && n <= |data|
      modifies this`sp
      ensures Valid() && sp == n
    {
      sp := n;
      forall p | 0 <= p < |pages| ensures PageOk(p) { assert old(PageOk(p)); }
    }

    method WriteChunk(pos: nat, src: seq<Byte>, from: nat, n: nat)
      requires Valid() && from + n <= |src| && pos % PAGE_SIZE + n <= PAGE_SIZE && pos + n <= |data| && pos < |data|
      modifies this`data, pages
      ensures Valid() && data == Put(old(data), pos, src[from..from + n])
    {
      var p := pos / PAGE_SIZE;
      var at := pos % PAGE_SIZE;
      assert pos == PAGE_SIZE * p + at;
      assert p < |pages| && PageOk(p);
      ghost var was := data;
      CopyIn(pages[p], at, src, from, n);
      data := Put(data, pos, src[from..from + n]);
      forall q | 0 <= q < |pages| ensures PageOk(q) {
        assert old(PageOk(q));
        if q != p { assert pages[q] != pages[p]; }
        PutPage(was, pos, src[from..from + n], p, q);
      }
    }

    /** Write across pages; refused when it would leave the mapped stack. */
    method WriteBytes(pos: nat, src: seq<Byte>) returns (ok: bool)
      requires Valid()
      modifies this`data, pages
      ensures Valid() && ok == (pos + |src| <= |old(data)|)
      ensures data == if ok then Put(old(data), pos, src) else old(data)
    {
      if pos + |src| > PAGE_SIZE * |pages| { return false; }
      var done := 0;
      assert Put(data, pos, src[..0]) == data;
      while done < |src|
        invariant done <= |src| && Valid() && |data| == |old(data)|
        invariant data == Put(old(data), pos, src[..done])
      {
        var at := pos + done;
        var chunk := PAGE_SIZE - at % PAGE_SIZE;
        if chunk > |src| - done { chunk := |src| - done; }
        WriteChunk(at, src, done, chunk);
        PutTwice(old(data), pos, src, done, chunk);
        done := done + chunk;
      }
      assert src[..done] == src;
      ok := true;
    }

    method PushWord(v: nat)
      requires Valid() && 8 <= sp
      modifies this`data, this`sp, pages
      ensures Valid() && Abs() == Push(old(Abs()), v)
    {
      SetSp(sp - 8);
      var ok := WriteBytes(sp, Le(v, WORD));
    }

    /** Push words so that they read upward in order. */
    method PushWords(vs: seq<nat>)
      requires Valid() && 8 * |vs| <= sp
      modifies this`data, this`sp, pages
      ensures Valid() && Abs() == PushAll(old(Abs()), vs)
    {
      var i := |vs|;
      assert vs[i..] == [];
      while i > 0
        invariant i <= |vs| && Valid() && |data| == |old(data)|
        invariant Abs() == PushAll(old(Abs()), vs[i..])
      {
        i := i - 1;
        assert vs[i..][1..] == vs[i + 1..];
        PushWord(vs[i]);
      }
      assert vs[0..] == vs;
    }

    method PutString(s: seq<Byte>) returns (ok: bool)
      requires Valid()
      modifies this`data, this`sp, pages
      ensures Valid() && ok == PutStr(old(Abs()), s).Some?
      ensures Abs() == if ok then PutStr(old(Abs()), s).value else old(Abs())
    {
      if sp < |s| + 1 { return false; }
      SetSp(sp - (|s| + 1));
      ok := WriteBytes(sp, s + [0]);
    }

    /** The strings from last to first; on failure the rest is not written. */
    method PutStrings(ss: seq<seq<Byte>>) returns (ok: bool, ptrs: seq<nat>)
      requires Valid()
      modifies this`data, this`sp, pages
      ensures Valid() && |data| == |old(data)| && ok == PutStrs(old(Abs()), ss).Some?
      ensures ok ==> PutStrs(old(Abs()), ss) == Some(Placed(Abs(), ptrs))
    {
      ptrs := [];
      var i := |ss|;
      assert ss[i..] == [];
      while i > 0
        invariant i <= |ss| && Valid() && |data| == |old(data)|
        invariant PutStrs(old(Abs()), ss[i..]) == Some(Placed(Abs(), ptrs))
      {
        i := i - 1;
        assert ss[i..][1..] == ss[i + 1..];
        ok := PutString(ss[i]);
        if !ok {
          NeverMore(old(Abs()), ss, i);
          return;
        }
        ptrs := [sp] + ptrs;
      }
      assert ss[0..] == ss;
      ok := true;
    }

    method Align()
      requires Valid()
      modifies this`sp
      ensures Valid() && sp == Align8(old(sp))
    {
      SetSp(sp - sp % 8);
    }

    /** The vectors below the strings, from the terminator of the auxiliary vector down
        to argc. */
    method PushVectors(args: seq<nat>, envs: seq<nat>, aux: seq<Aux>)
      requires Valid() && 8 * |Vector(base, args, envs, aux)| <= sp
      modifies this`data, this`sp, pages
      ensures Valid() && Abs() == PushAll(old(Abs()), Vector(base, args, envs, aux))
    {
      var a, b, c := Addresses(base, args) + [0], Addresses(base, envs) + [0], Flat(aux) + [AT_NULL, 0];
      ghost var x := Abs();
      PushAppend(x, [|args|] + a + b, c);
      PushWords(c);
      PushAppend(Abs(), [|args|] + a, b);
      PushWords(b);
      PushAppend(Abs(), [|args|], a);
      PushWords(a);
      PushOne(Abs(), |args|);
      PushWord(|args|);
    }

    /** The image for a given auxiliary vector and given random bytes. */
    method PrepareWith(argv: seq<seq<Byte>>, envp: seq<seq<Byte>>, aux: seq<Aux>, rnd: seq<Byte>) returns (r: int)
      requires Valid() && |rnd| == 16 && |pages| > 0 && |aux| <= 13
      modifies this`data, this`sp, pages
      ensures Valid()
      ensures match Build(old(data), base, argv, envp, aux, rnd)
              case Failed(code) => r == code
              case Ready(mem, args, envs, random) => r == 0 && Abs() == mem
    {
      if |argv| > MAX_STRINGS || |envp| > MAX_STRINGS { return -7; }
      SetSp(PAGE_SIZE * |pages| - 16);
      var ok := WriteBytes(sp, rnd);
      assert Abs() == Top(old(data), rnd);
      var envs, args;
      ok, envs := PutStrings(envp);
      if !ok { return -1; }
      ok, args := PutStrings(argv);
      if !ok { return -1; }
      Align();
      if sp < (|envp| + |argv| + 32) * 8 { return -1; }
      PushVectors(args, envs, aux);
      r := 0;
    }

    /** 0 on success, -7 (E2BIG) for too many strings, -1 when they do not fit. */
    method Prepare(argv: seq<seq<Byte>>, envp: seq<seq<Byte>>, info: Info) returns (r: int)
      requires Valid() && |pages| > 0
      modifies this`data, this`sp, pages
      ensures Valid()
      ensures match Image(old(data), base, info, argv, envp, RandomBytes())
              case Failed(code) => r == code
              case Ready(mem, args, envs, random) => r == 0 && Abs() == mem
      ensures r == 0 <==> Image(old(data), base, info, argv, envp, RandomBytes()).Ready?
      ensures r == if |argv| > MAX_STRINGS || |envp| > MAX_STRINGS then -7
                   else if EP.StringsEnd(PAGE_SIZE * |pages|, argv, envp) < (|envp| + |argv| + 32) * 8 then -1 else 0
    {
      EP.SucceedsIff(data, base, argv, envp, AuxOf(info, base + (|data| - 16)), RandomBytes());
      var random := base + (PAGE_SIZE * |pages| - 16);
      r := PrepareWith(argv, envp, AuxOf(info, random), RandomBytes());
    }
  }

  /** When a string does not fit, nor does any list that contains it. */
  lemma {:induction false} NeverMore(x: Mem, ss: seq<seq<Byte>>, i: nat)
    requires x.sp <= |x.m| && i <= |ss| && PutStrs(x, ss[i..]).None?
    ensures PutStrs(x, ss).None?
    decreases i
  {
    if i > 0 {
      assert ss[i - 1..][1..] == ss[i..];
      NeverMore(x, ss, i - 1);
    } else {
      assert ss[0..] == ss;
    }
  }
}
