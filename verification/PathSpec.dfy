/** Paths as lists of components. */
module PathSpec {

  /** Room for a path and its terminator. */
  const PATH_MAX: nat := 256

  /** The end of the component that starts at `i`. */
  function CompEnd(p: string, i: nat): (j: nat)
    requires i <= |p|
    ensures i <= j <= |p| && (j < |p| ==> p[j] == '/') && forall k :: i <= k < j ==> p[k] != '/'
    decreases |p| - i
  {
    if i == |p| || p[i] == '/' then i else CompEnd(p, i + 1)
  }

  /** The components of `p` from `i` on: the non-empty runs between slashes. */
  function Comps(p: string, i: nat): (cs: seq<string>)
    requires i <= |p|
    ensures AllComps(cs)
    decreases |p| - i
  {
    if i == |p| then []
    else if p[i] == '/' then Comps(p, i + 1)
    else [p[i..CompEnd(p, i)]] + Comps(p, CompEnd(p, i))
  }

  ghost predicate AllComps(dir: seq<string>) {
    forall i {:trigger IsComp(dir[i])} :: 0 <= i < |dir| ==> IsComp(dir[i])
  }

  predicate IsComp(c: string) { c != [] && forall k :: 0 <= k < |c| ==> c[k] != '/' }

  /** One component applied to a directory: "." stays, ".." goes up, with the root as
      floor. */
  function Enter(dir: seq<string>, c: string): seq<string> {
    if c == "." then dir
    else if c == ".." then (if dir == [] then [] else dir[..|dir| - 1])
    else dir + [c]
  }

  function Walk(dir: seq<string>, cs: seq<string>): seq<string>
    decreases |cs|
  {
    if cs == [] then dir else Walk(Enter(dir, cs[0]), cs[1..])
  }

  /** What a path means: the directory it leads to from the root. */
  function Meaning(p: string): seq<string> { Walk([], Comps(p, 0)) }

  /** The canonical text of a directory. */
  function Render(dir: seq<string>): string {
    if dir == [] then "" else Render(dir[..|dir| - 1]) + "/" + dir[|dir| - 1]
  }

  function Text(dir: seq<string>, slash: bool): string { if slash then Render(dir) + "/" else Render(dir) }


  // ---- reading back what was rendered -------------------------------------------

  lemma {:induction false} CompEndAppend(a: string, b: string, i: nat)
    requires i <= |a| && (b == [] || b[0] == '/')
    ensures CompEnd(a + b, i) == CompEnd(a, i)
    decreases |a| - i
  {
    if i < |a| && a[i] != '/' { CompEndAppend(a, b, i + 1); }
  }

  lemma {:induction false} CompsAppend(a: string, b: string, i: nat)
    requires i <= |a| && (b == [] || b[0] == '/')
    ensures Comps(a + b, i) == Comps(a, i) + Comps(b, 0)
    decreases |a| - i
  {
    if i == |a| {
      CompsShift(a, b, 0);
    } else if a[i] == '/' {
      CompsAppend(a, b, i + 1);
    } else {
      CompEndAppend(a, b, i);
      var j := CompEnd(a, i);
      CompsAppend(a, b, j);
      assert (a + b)[i..j] == a[i..j];
    }
  }

  lemma {:induction false} CompEndShift(a: string, b: string, i: nat)
    requires i <= |b|
    ensures CompEnd(a + b, |a| + i) == |a| + CompEnd(b, i)
    decreases |b| - i
  {
    if i < |b| && b[i] != '/' { CompEndShift(a, b, i + 1); }
  }

  lemma {:induction false} CompsShift(a: string, b: string, i: nat)
    requires i <= |b|
    ensures Comps(a + b, |a| + i) == Comps(b, i)
    decreases |b| - i
  {
    if i < |b| {
      if b[i] == '/' {
        CompsShift(a, b, i + 1);
      } else {
        CompEndShift(a, b, i);
        var j := CompEnd(b, i);
        CompsShift(a, b, j);
        assert (a + b)[|a| + i..|a| + j] == b[i..j];
      }
    }
  }

  lemma {:induction false} CompEndOfComp(c: string, i: nat)
    requires IsComp(c) && i <= |c|
    ensures CompEnd(c, i) == |c|
    decreases |c| - i
  {
    if i < |c| { CompEndOfComp(c, i + 1); }
  }

  lemma OneComp(c: string)
    requires IsComp(c)
    ensures Comps("/" + c, 0) == [c]
  {
    CompEndOfComp(c, 0);
    CompsShift("/", c, 0);
    assert c[0..|c|] == c;
    assert Comps(c, |c|) == [];
    assert Comps("/" + c, 1) == [c];
  }

  lemma AppendComp(a: string, c: string)
    requires IsComp(c)
    ensures Comps(a + "/" + c, 0) == Comps(a, 0) + [c]
  {
    OneComp(c);
    var b := "/" + c;
    CompsAppend(a, b, 0);
    assert a + "/" + c == a + b;
  }

  lemma AppendSlash(a: string, b: string)
    requires b == "/"
    ensures Comps(a + b, 0) == Comps(a, 0)
  {
    CompsAppend(a, b, 0);
    assert Comps(b, 1) == [];
  }

  lemma FrontComps(dir: seq<string>)
    requires AllComps(dir) && dir != []
    ensures AllComps(dir[..|dir| - 1])
  {
    var front := dir[..|dir| - 1];
    forall i | 0 <= i < |front| ensures IsComp(front[i]) { assert front[i] == dir[i] && IsComp(dir[i]); }
  }

  lemma PushComps(dir: seq<string>, c: string)
    requires AllComps(dir) && IsComp(c)
    ensures AllComps(dir + [c])
  {
    var next := dir + [c];
    forall i | 0 <= i < |next| ensures IsComp(next[i]) { if i < |dir| { assert IsComp(dir[i]); } }
  }

  lemma {:induction false} RenderBack(dir: seq<string>)
    requires AllComps(dir)
    ensures Comps(Render(dir), 0) == dir
  {
    if dir != [] {
      var front, last := dir[..|dir| - 1], dir[|dir| - 1];
      assert IsComp(last);
      FrontComps(dir);
      RenderBack(front);
      AppendComp(Render(front), last);
      assert dir == front + [last];
    }
  }

  /** Rendering loses nothing, with or without a trailing slash. */
  lemma RenderRoundTrip(dir: seq<string>, slash: bool)
    requires AllComps(dir)
    ensures Comps(Text(dir, slash), 0) == dir
  {
    RenderBack(dir);
    if slash { AppendSlash(Render(dir), "/"); }
  }

  // ---- what a path means --------------------------------------------------------

  lemma {:induction false} WalkAppend(dir: seq<string>, cs: seq<string>, c: string)
    ensures Walk(dir, cs + [c]) == Enter(Walk(dir, cs), c)
    decreases |cs|
  {
    if cs == [] {
      assert [c][1..] == [];
      assert Walk(dir, [c]) == Walk(Enter(dir, c), []);
      assert cs + [c] == [c];
    } else {
      WalkAppend(Enter(dir, cs[0]), cs[1..], c);
      assert (cs + [c])[1..] == cs[1..] + [c];
    }
  }

  /** A name leads into the directory of that name. */
  lemma NameEnters(p: string, c: string)
    requires IsName(c)
    ensures Meaning(p + "/" + c) == Meaning(p) + [c]
  {
    AppendComp(p, c);
    WalkAppend([], Comps(p, 0), c);
  }

  /** "." stays where it is, and ".." leads to the parent, the root being its own. */
  lemma DotsMean(p: string, dot: string, dots: string)
    requires dot == "." && dots == ".."
    ensures Meaning(p + "/" + dot) == Meaning(p)
    ensures Meaning(p + "/" + dots) == if Meaning(p) == [] then [] else Meaning(p)[..|Meaning(p)| - 1]
  {
    AppendComp(p, dot);
    AppendComp(p, dots);
    WalkAppend([], Comps(p, 0), dot);
    WalkAppend([], Comps(p, 0), dots);
  }

  /** Going into a directory and up again is going nowhere. */
  lemma UpUndoesName(p: string, c: string, dots: string)
    requires IsName(c) && dots == ".."
    ensures Meaning(p + "/" + c + "/" + dots) == Meaning(p)
  {
    NameEnters(p, c);
    DotsMean(p + "/" + c, ".", dots);
    assert (Meaning(p) + [c])[..|Meaning(p) + [c]| - 1] == Meaning(p);
  }

  ghost predicate Dotless(dir: seq<string>) { forall i :: 0 <= i < |dir| ==> IsName(dir[i]) }

  predicate IsName(c: string) { IsComp(c) && c != "." && c != ".." }

  lemma {:induction false} WalkDotless(dir: seq<string>, cs: seq<string>)
    requires Dotless(dir) && AllComps(cs)
    ensures Dotless(Walk(dir, cs))
    decreases |cs|
  {
    if cs != [] {
      assert IsComp(cs[0]);
      var rest := cs[1..];
      forall i | 0 <= i < |rest| ensures IsComp(rest[i]) { assert rest[i] == cs[i + 1] && IsComp(cs[i + 1]); }
      WalkDotless(Enter(dir, cs[0]), rest);
    }
  }

  lemma {:induction false} WalkNames(dir: seq<string>, cs: seq<string>)
    requires Dotless(cs)
    ensures Walk(dir, cs) == dir + cs
    decreases |cs|
  {
    if cs != [] {
      var rest := cs[1..];
      forall i | 0 <= i < |rest| ensures IsName(rest[i]) { assert rest[i] == cs[i + 1]; }
      WalkNames(dir + [cs[0]], rest);
      assert dir + [cs[0]] + rest == dir + cs;
    }
  }

  /** What a path means has no dots left, and its text means the same: canonical text is a
      fixed point. */
  lemma CanonicalIsFixed(p: string, slash: bool)
    ensures Dotless(Meaning(p)) && Meaning(Text(Meaning(p), slash)) == Meaning(p)
  {
    WalkDotless([], Comps(p, 0));
    var dir := Meaning(p);
    forall i | 0 <= i < |dir| ensures IsComp(dir[i]) { assert IsName(dir[i]); }
    RenderRoundTrip(dir, slash);
    WalkNames([], dir);
    assert [] + dir == dir;
  }
}
